/** Web-push subscriptions: the process-wide registry from user id to that
    user's subscriptions, the subscribe route that fills it, and the two
    senders that walk it. The `webpush` call itself is a parameter
    (`deliver`) that says how one attempt ended. */
module Push {
  import opened Common

  predicate NoDuplicates<T(==)>(s: seq<T>) {
    forall i, j :: 0 <= i < j < |s| ==> s[i] != s[j]
  }

  /** The registry's value: the user ids in the dict's insertion order, and
      each user's subscription list. */
  datatype Registry = Registry(order: seq<int>, lists: map<int, seq<Value>>)

  /** What every reachable registry satisfies: each key once in the insertion
      order, every list non-empty and free of duplicates. The order then
      lists every user exactly once. */
  predicate WellFormed(reg: Registry): (b: bool)
    ensures b ==> |reg.order| == |reg.lists|
  {
    && NoDuplicates(reg.order)
    && (forall k :: k in reg.lists ==> k in reg.order)
    && (forall k :: k in reg.order ==> k in reg.lists)
    && (forall k :: k in reg.lists ==> reg.lists[k] != [] && NoDuplicates(reg.lists[k]))
    // The last conjunct is always true: it calls the lemma that proves the
    // ensures clause from the conjuncts before it.
    && (DistinctCount(reg.order, reg.lists.Keys); true)
  }

  /** A list without repeats has as many entries as it has distinct elements. */
  lemma {:induction false} DistinctCount(order: seq<int>, keys: set<int>)
    requires NoDuplicates(order)
    requires forall k :: k in keys <==> k in order
    ensures |keys| == |order|
  {
    if order != [] {
      var init, last := order[..|order| - 1], order[|order| - 1];
      assert order == init + [last];
      forall k | k in init ensures k != last {
        var i :| 0 <= i < |init| && init[i] == k;
        assert order[i] == k;
      }
      assert forall k :: k in keys - {last} <==> k in init;
      DistinctCount(init, keys - {last});
      assert last in keys;
      assert keys == (keys - {last}) + {last};
    } else {
      assert forall k :: k !in keys;
      assert keys == {};
    }
  }

  /** The registry after `sub` is registered for `uid`: the list is created
      when missing, and `sub` is appended unless already there. */
  function Add(reg: Registry, uid: int, sub: Value): (r: Registry)
    requires WellFormed(reg)
    ensures WellFormed(r)
    ensures uid in r.lists && sub in r.lists[uid]
    ensures r.lists.Keys == reg.lists.Keys + {uid}
    ensures forall k :: k in reg.lists && k != uid ==> r.lists[k] == reg.lists[k]
    ensures uid in reg.lists && sub in reg.lists[uid] ==> r == reg
    ensures uid in reg.lists && sub !in reg.lists[uid] ==>
              r.order == reg.order && r.lists[uid] == reg.lists[uid] + [sub]
    ensures uid !in reg.lists ==> r.order == reg.order + [uid] && r.lists[uid] == [sub]
  {
    var current := if uid in reg.lists then reg.lists[uid] else [];
    var order := if uid in reg.lists then reg.order else reg.order + [uid];
    var r := Registry(order, reg.lists[uid := if sub in current then current else current + [sub]]);
    assert uid in reg.lists && sub in current ==> r.lists == reg.lists;
    r
  }

  /** Subscribing twice is subscribing once. */
  lemma AddIdempotent(reg: Registry, uid: int, sub: Value)
    requires WellFormed(reg)
    ensures Add(Add(reg, uid, sub), uid, sub) == Add(reg, uid, sub)
  {
  }

  // ---------------------------------------------------------------------------
  // The checks of POST /subscribe

  /** Python's `int(v)`: `ValueError` and `TypeError` are the two ways it fails. */
  datatype IntConversion = Converted(n: int) | ValueError | TypeError

  function ToInt(v: Value): (c: IntConversion)
    ensures v.Num? ==> c == Converted(v.n)
    ensures v.Str? ==> (c.Converted? <==> ParseInt(v.s).Some?)
    ensures v.Str? && c.Converted? ==> c.n == ParseInt(v.s).value
    ensures v.Str? && !c.Converted? ==> c == ValueError
    ensures c.TypeError? <==> !(v.Num? || v.Bool? || v.Str?)
  {
    match v
    case Num(n) => Converted(n)
    case Bool(b) => Converted(if b then 1 else 0)
    case Str(s) => if ParseInt(s).Some? then Converted(ParseInt(s).value) else ValueError
    case _ => TypeError
  }

  /** `data.get(key)`, with a missing key read as `None`. */
  function Field(body: seq<(string, Value)>, key: string): Value {
    DictGet(body, key).GetOr(Null)
  }

  const MissingFields := HttpError(400, "Необходимо передать subscription и user_id")
  const BadUserId := HttpError(400, "user_id должен быть числом")
  const NoSubscriptions := HttpError(400, "Нет подписок")

  /** The validation `subscribe` does before touching the registry: the user
      id to register under, or the error the request ends with. */
  function SubscribeCheck(body: seq<(string, Value)>): (r: Result<int>)
    ensures !Truthy(Field(body, "subscription")) || Field(body, "user_id").Null? ==> r == Err(MissingFields)
    ensures r.Ok? <==>
              Truthy(Field(body, "subscription")) && !Field(body, "user_id").Null?
              && ToInt(Field(body, "user_id")).Converted?
    ensures r.Ok? ==> r.value == ToInt(Field(body, "user_id")).n
    ensures Truthy(Field(body, "subscription")) && ToInt(Field(body, "user_id")).ValueError? ==> r == Err(BadUserId)
    ensures (Truthy(Field(body, "subscription")) && !Field(body, "user_id").Null?
             && ToInt(Field(body, "user_id")).TypeError?) ==> r == Err(InternalError)
  {
    var subscription := Field(body, "subscription");
    var userId := Field(body, "user_id");
    if !Truthy(subscription) || userId.Null? then Err(MissingFields)
    else
      match ToInt(userId)
      case Converted(n) => Ok(n)
      case ValueError => Err(BadUserId)
      case TypeError => Err(InternalError)
  }

  // ---------------------------------------------------------------------------
  // Sending

  /** How one `webpush` call ends: the push went out, it raised a
      `WebPushException` (with its text), or it raised anything else (a
      network error, or the `TypeError` of a subscription that is not a dict),
      which the senders do not catch. */
  datatype Delivery = Sent | PushFailed(detail: string) | Raised

  datatype PushResult = PushResult(subscription: Value, status: string, detail: Option<string>)

  /** Some push to `subs` raises an exception the senders do not catch. */
  predicate Escapes(subs: seq<Value>, data: Value, deliver: (Value, Value) -> Delivery) {
    exists s :: s in subs && deliver(s, data).Raised?
  }

  /** The result entry for one caught `webpush` attempt. */
  function Outcome(sub: Value, data: Value, deliver: (Value, Value) -> Delivery): (r: PushResult)
    requires !deliver(sub, data).Raised?
    ensures r.subscription == sub
    ensures r.status == "sent" <==> deliver(sub, data).Sent?
    ensures r.status == "error" <==> deliver(sub, data).PushFailed?
    ensures r.detail.Some? <==> deliver(sub, data).PushFailed?
    ensures r.detail.Some? ==> r.detail.value == deliver(sub, data).detail
  {
    match deliver(sub, data)
    case Sent => PushResult(sub, "sent", None)
    case PushFailed(detail) => PushResult(sub, "error", Some(detail))
  }

  /** The results of pushing to `subs` one after the other when nothing
      escapes: one per subscription, in order. */
  function Outcomes(subs: seq<Value>, data: Value, deliver: (Value, Value) -> Delivery): (rs: seq<PushResult>)
    requires !Escapes(subs, data, deliver)
    ensures |rs| == |subs|
    ensures forall i :: 0 <= i < |subs| ==> rs[i] == Outcome(subs[i], data, deliver)
  {
    seq(|subs|, i requires 0 <= i < |subs| => assert subs[i] in subs; Outcome(subs[i], data, deliver))
  }

  /** An uncaught exception escapes from two lists in turn iff it escapes
      from one of them. */
  lemma EscapesConcat(a: seq<Value>, b: seq<Value>, data: Value, deliver: (Value, Value) -> Delivery)
    ensures Escapes(a + b, data, deliver) <==> Escapes(a, data, deliver) || Escapes(b, data, deliver)
  {
    assert forall s :: s in a + b <==> s in a || s in b;
  }

  /** Sending to two lists in turn gives the results of the first, then those of the second. */
  lemma OutcomesConcat(a: seq<Value>, b: seq<Value>, data: Value, deliver: (Value, Value) -> Delivery)
    requires !Escapes(a + b, data, deliver)
    ensures !Escapes(a, data, deliver) && !Escapes(b, data, deliver)
    ensures Outcomes(a + b, data, deliver) == Outcomes(a, data, deliver) + Outcomes(b, data, deliver)
  {
    EscapesConcat(a, b, data, deliver);
    var whole, left, right := Outcomes(a + b, data, deliver), Outcomes(a, data, deliver), Outcomes(b, data, deliver);
    forall i | 0 <= i < |whole| ensures whole[i] == (left + right)[i] {
      if i >= |a| {
        assert (a + b)[i] == b[i - |a|];
      }
    }
  }

  /** The inner loop of both senders: one `webpush` per subscription, in
      order, a `WebPushException` recorded instead of raised. `None` when
      another exception escapes, which ends the loop. */
  method PushAll(subs: seq<Value>, data: Value, deliver: (Value, Value) -> Delivery)
    returns (results: Option<seq<PushResult>>)
    ensures results.None? <==> Escapes(subs, data, deliver)
    ensures results.Some? ==> results.value == Outcomes(subs, data, deliver)
  {
    var sent: seq<PushResult> := [];
    for j := 0 to |subs|
      invariant |sent| == j
      invariant forall k :: 0 <= k < j ==> !deliver(subs[k], data).Raised?
      invariant forall k :: 0 <= k < j ==> sent[k] == Outcome(subs[k], data, deliver)
    {
      if deliver(subs[j], data).Raised? {
        assert subs[j] in subs;
        return None;
      }
      sent := sent + [Outcome(subs[j], data, deliver)];
    }
    results := Some(sent);
  }

  /** Every stored subscription, user by user in insertion order: a
      subscription is visited iff some listed user holds it. */
  function Flatten(order: seq<int>, lists: map<int, seq<Value>>): (r: seq<Value>)
    requires forall k :: k in order ==> k in lists
    ensures forall s :: s in r <==> exists k :: k in order && s in lists[k]
  {
    if order == [] then []
    else
      var init, last := order[..|order| - 1], order[|order| - 1];
      assert last in order;
      assert order == init + [last];
      assert forall k :: k in order <==> k in init || k == last;
      Flatten(init, lists) + lists[last]
  }

  /** One more user in the order adds that user's list at the end. */
  lemma FlattenStep(order: seq<int>, lists: map<int, seq<Value>>, i: nat)
    requires forall k :: k in order ==> k in lists
    requires i < |order|
    ensures order[i] in lists
    ensures Flatten(order[..i + 1], lists) == Flatten(order[..i], lists) + lists[order[i]]
  {
    assert order[i] in order;
    var prefix := order[..i + 1];
    assert prefix[|prefix| - 1] == order[i];
    assert prefix[..|prefix| - 1] == order[..i];
  }

  /** An exception escaping from one listed user's pushes escapes from the
      whole walk. */
  lemma EscapesInFlatten(order: seq<int>, lists: map<int, seq<Value>>, i: nat,
                         data: Value, deliver: (Value, Value) -> Delivery)
    requires forall k :: k in order ==> k in lists
    requires i < |order| && order[i] in lists && Escapes(lists[order[i]], data, deliver)
    ensures Escapes(Flatten(order, lists), data, deliver)
  {
    var s :| s in lists[order[i]] && deliver(s, data).Raised?;
    assert order[i] in order;
  }

  /** Every stored subscription, and only those. */
  function AllSubscriptions(reg: Registry): (subs: seq<Value>)
    requires WellFormed(reg)
    ensures forall s :: s in subs <==> exists k :: k in reg.lists && s in reg.lists[k]
  {
    Flatten(reg.order, reg.lists)
  }

  // ---------------------------------------------------------------------------
  // The module-level `subscriptions` dict

  class SubscriptionRegistry {
    var order: seq<int>
    var lists: map<int, seq<Value>>

    function Snapshot(): Registry
      reads this
    {
      Registry(order, lists)
    }

    predicate Valid()
      reads this
    {
      WellFormed(Snapshot())
    }

    constructor ()
      ensures Valid() && Snapshot() == Registry([], map[])
    {
      order, lists := [], map[];
    }

    /** POST /subscribe with JSON body `body`. A rejected request leaves the
        registry as it was. */
    method Subscribe(body: seq<(string, Value)>) returns (r: Result<string>)
      requires Valid()
      modifies this
      ensures Valid()
      ensures SubscribeCheck(body).Err? ==> r == Err(SubscribeCheck(body).error) && Snapshot() == old(Snapshot())
      ensures SubscribeCheck(body).Ok? ==>
                r == Ok("ok") && Snapshot() == Add(old(Snapshot()), SubscribeCheck(body).value, Field(body, "subscription"))
    {
      var check := SubscribeCheck(body);
      if check.Err? {
        return Err(check.error);
      }
      var uid, sub := check.value, Field(body, "subscription");
      ghost var before := Snapshot();
      if uid !in lists {
        lists := lists[uid := []];
        order := order + [uid];
      }
      if sub !in lists[uid] {
        lists := lists[uid := lists[uid] + [sub]];
      }
      assert lists == Add(before, uid, sub).lists;
      r := Ok("ok");
    }

    /** POST /send with JSON body `message`: pushes `message["data"]` to every
        stored subscription. An exception other than `WebPushException` ends
        the route with a 500, and the results gathered so far are lost. */
    method SendPush(message: seq<(string, Value)>, deliver: (Value, Value) -> Delivery)
      returns (r: Result<seq<PushResult>>)
      requires Valid()
      ensures lists == map[] ==> r == Err(NoSubscriptions)
      ensures lists != map[] && Escapes(AllSubscriptions(Snapshot()), DictGet(message, "data").GetOr(Dict([])), deliver) ==>
                r == Err(InternalError)
      ensures lists != map[] && !Escapes(AllSubscriptions(Snapshot()), DictGet(message, "data").GetOr(Dict([])), deliver) ==>
                r == Ok(Outcomes(AllSubscriptions(Snapshot()), DictGet(message, "data").GetOr(Dict([])), deliver))
    {
      if lists == map[] {
        return Err(NoSubscriptions);
      }
      var data := DictGet(message, "data").GetOr(Dict([]));
      var userOrder, userSubs := order, lists;
      assert WellFormed(Registry(userOrder, userSubs));
      var results: seq<PushResult> := [];
      var i := 0;
      while i < |userOrder|
        invariant 0 <= i <= |userOrder|
        invariant !Escapes(Flatten(userOrder[..i], userSubs), data, deliver)
        invariant results == Outcomes(Flatten(userOrder[..i], userSubs), data, deliver)
      {
        FlattenStep(userOrder, userSubs, i);
        var sent := PushAll(userSubs[userOrder[i]], data, deliver);
        if sent.None? {
          EscapesInFlatten(userOrder, userSubs, i, data, deliver);
          return Err(InternalError);
        }
        EscapesConcat(Flatten(userOrder[..i], userSubs), userSubs[userOrder[i]], data, deliver);
        OutcomesConcat(Flatten(userOrder[..i], userSubs), userSubs[userOrder[i]], data, deliver);
        results := results + sent.value;
        i := i + 1;
      }
      assert userOrder[..i] == userOrder;
      r := Ok(results);
    }

    /** `send_push_internally`: pushes `data` to the devices of one user; a
        user without an entry gets nothing. A `WebPushException` is absorbed;
        any other exception reaches the caller, which is `None` here. */
    method SendPushInternally(data: Value, targetUserId: int, deliver: (Value, Value) -> Delivery)
      returns (attempts: Option<seq<PushResult>>)
      requires Valid()
      ensures targetUserId !in lists ==> attempts == Some([])
      ensures targetUserId in lists && Escapes(lists[targetUserId], data, deliver) ==> attempts == None
      ensures targetUserId in lists && !Escapes(lists[targetUserId], data, deliver) ==>
                attempts == Some(Outcomes(lists[targetUserId], data, deliver))
    {
      if targetUserId !in lists {
        return Some([]);
      }
      attempts := PushAll(lists[targetUserId], data, deliver);
    }
  }
}
