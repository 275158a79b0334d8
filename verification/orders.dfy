/**
 * The order controller's `create` action: an authenticated caller's order
 * data is stamped with the caller's id, in place, and handed once to the
 * order service, whose result goes back to the caller untouched.
 */
module Orders {
  import opened Wrappers
  import opened JsStrings
  import opened JsObjects

  const UserKey := Lit("user")
  const UnauthorizedMessage := Lit("User not authenticated")

  /** `ctx.state.user`, of which the action only reads the id. */
  datatype User = User(id: nat)

  /** What the service hands back for one created order. */
  datatype Entity = Entity(id: nat, data: Object)

  /** The action's reply: a 401, the `TypeError` of a body without `data`, or the service's entity. */
  datatype Outcome = Unauthorized(message: JsString) | MissingData | Created(entity: Entity)

  /** `data['user'] = userId`: the owner field is overwritten or added, nothing else moves. */
  function StampOwner(data: Object, userId: nat): (r: Object)
    ensures Lookup(r, UserKey) == Some(Num(userId))
    ensures forall k :: k != UserKey ==> Lookup(r, k) == Lookup(data, k)
    ensures Keys(r) == if UserKey in Keys(data) then Keys(data) else Keys(data) + [UserKey]
  {
    AssignKeys(data, UserKey, Num(userId));
    Assign(data, UserKey, Num(userId))
  }

  /** Stamping keeps the object free of duplicate keys. */
  lemma StampOwnerWellFormed(data: Object, userId: nat)
    requires WellFormed(data)
    ensures WellFormed(StampOwner(data, userId))
  {
    AssignWellFormed(data, UserKey, Num(userId));
  }

  /**
   * Only the last stamp counts: whatever owner the client (or an earlier
   * stamp) put in `data`, the result is the one stamping the original gives.
   */
  lemma {:induction false} StampOwnerOverrides(data: Object, claimed: Value, userId: nat)
    ensures StampOwner(Assign(data, UserKey, claimed), userId) == StampOwner(data, userId)
  {
    if data != [] && data[0].key != UserKey {
      var tail := data[1..];
      StampOwnerOverrides(tail, claimed, userId);
      var once := Assign(data, UserKey, claimed);
      assert once == [data[0]] + Assign(tail, UserKey, claimed);
      assert once[0] == data[0] && once[1..] == Assign(tail, UserKey, claimed);
    }
  }

  /** `ctx.request.body.data`, an object the action changes in place. */
  class OrderData {
    var fields: Object

    constructor (fields: Object)
      ensures this.fields == fields
    {
      this.fields := fields;
    }
  }

  /** `strapi.service('api::order.order')`: the orders it was asked to create, in order. */
  class OrderService {
    var received: seq<Object>
    var nextId: nat

    constructor ()
      ensures received == [] && nextId == 1
    {
      received := [];
      nextId := 1;
    }

    /** `create({ data })`: records the data and returns the created entity. */
    method Create(data: Object) returns (entity: Entity)
      modifies this
      ensures entity == Entity(old(nextId), data)
      ensures received == old(received) + [data]
      ensures nextId == old(nextId) + 1
    {
      entity := Entity(nextId, data);
      received := received + [data];
      nextId := nextId + 1;
    }
  }

  /**
   * The `create` action. Without a user the service is never called and
   * nothing changes; with one, `data` gains the caller as owner, the service
   * gets exactly that object once, and its entity is the reply.
   */
  method Create(user: Option<User>, data: OrderData?, service: OrderService) returns (outcome: Outcome)
    modifies data, service
    ensures user.None? ==>
      && outcome == Unauthorized(UnauthorizedMessage)
      && unchanged(service)
      && (data != null ==> unchanged(data))
    ensures user.Some? && data == null ==> outcome == MissingData && unchanged(service)
    ensures user.Some? && data != null ==>
      && data.fields == StampOwner(old(data.fields), user.value.id)
      && service.received == old(service.received) + [data.fields]
      && outcome == Created(Entity(old(service.nextId), data.fields))
  {
    if user.None? {
      return Unauthorized(UnauthorizedMessage);
    }
    if data == null {
      return MissingData;
    }
    data.fields := StampOwner(data.fields, user.value.id);
    var entity := service.Create(data.fields);
    return Created(entity);
  }
}
