/** The store of src/store.js: one current state, an ordered list of
    subscribers, and `update`, which commits updaters one at a time and
    notifies every subscriber after each commit. */
module Stores {
  import opened JsValues
  import opened Utils

  /** A subscriber callback, compared by identity as `!==` does. */
  type SubscriberId = nat

  /** One call `subscriber(newState, previousState)`. */
  datatype Notification = Notification(subscriber: SubscriberId, newState: Value, previousState: Value)

  /** The argument of `update`: one updater, or an array of them. */
  datatype UpdateRequest = One(updater: Updater) | InOrder(updaters: seq<Updater>)

  /** The function `subscribe` returns. */
  datatype Unsubscriber = Unsubscriber(callback: SubscriberId)

  function Steps(request: UpdateRequest): seq<Updater>
  {
    match request
    case One(u) => [u]
    case InOrder(us) => us
  }

  /** The calls one commit makes: every subscriber, in registration order. */
  function NotifyAll(subs: seq<SubscriberId>, newState: Value, previousState: Value): seq<Notification>
  {
    seq(|subs|, i requires 0 <= i < |subs| => Notification(subs[i], newState, previousState))
  }

  /** The states committed when `us` runs from `s`, up to the first failure. */
  function Commits(us: seq<Updater>, s: Value): seq<Value>
    decreases |us|
  {
    if us == [] then []
    else
      match us[0](s)
      case Ok(t) => [t] + Commits(us[1..], t)
      case Err(_) => []
  }

  /** The state after the commits `cs` starting from `s`. */
  function LastCommitted(s: Value, cs: seq<Value>): Value
  {
    if cs == [] then s else cs[|cs| - 1]
  }

  /** The state the `j`-th commit replaced. */
  function Previous(s: Value, cs: seq<Value>, j: nat): Value
    requires j <= |cs|
  {
    if j == 0 then s else cs[j - 1]
  }

  /** All notifications of the commits `cs` starting from `s`. */
  function NotifyTrace(subs: seq<SubscriberId>, s: Value, cs: seq<Value>): seq<Notification>
    decreases |cs|
  {
    if cs == [] then [] else NotifyAll(subs, cs[0], s) + NotifyTrace(subs, cs[0], cs[1..])
  }

  /** `subscribers.filter(subscriber => subscriber !== callback)`. */
  function Without(subs: seq<SubscriberId>, callback: SubscriberId): (kept: seq<SubscriberId>)
    ensures forall x :: x in kept <==> x in subs && x != callback
    ensures multiset(kept) == multiset(subs)[callback := 0]
    ensures |kept| <= |subs|
    decreases |subs|
  {
    if subs == [] then []
    else
      assert subs == [subs[0]] + subs[1..];
      if subs[0] == callback then Without(subs[1..], callback)
      else [subs[0]] + Without(subs[1..], callback)
  }

  /** Filtering works element by element, so it keeps the order of what it
      keeps: filtering a concatenation concatenates the filtered parts. */
  lemma {:induction false} WithoutAppend(a: seq<SubscriberId>, b: seq<SubscriberId>, callback: SubscriberId)
    ensures Without(a + b, callback) == Without(a, callback) + Without(b, callback)
    decreases |a|
  {
    if a != [] {
      assert (a + b)[0] == a[0];
      assert (a + b)[1..] == a[1..] + b;
      WithoutAppend(a[1..], b, callback);
    } else {
      assert a + b == b;
    }
  }

  /** One subscriber is dropped exactly when it is the callback. */
  lemma WithoutSingle(x: SubscriberId, callback: SubscriberId)
    ensures Without([x], callback) == if x == callback then [] else [x]
  {
    assert [x][1..] == [];
  }

  lemma {:induction false} NotifyTraceAppend(subs: seq<SubscriberId>, s: Value, cs: seq<Value>, t: Value)
    ensures NotifyTrace(subs, s, cs + [t]) == NotifyTrace(subs, s, cs) + NotifyAll(subs, t, LastCommitted(s, cs))
    decreases |cs|
  {
    if cs != [] {
      assert (cs + [t])[1..] == cs[1..] + [t];
      NotifyTraceAppend(subs, cs[0], cs[1..], t);
    }
  }

  class Store {
    var state: Value
    var subscribers: seq<SubscriberId>
    /** Every subscriber call made so far, in order. */
    ghost var notifications: seq<Notification>

    /** `new Store(initialState)`. */
    constructor (initialState: Value)
      ensures state == initialState
      ensures subscribers == [] && notifications == []
    {
      state := initialState;
      subscribers := [];
      notifications := [];
    }

    /** `getState()`. */
    method GetState() returns (current: Value)
      ensures current == state
    {
      current := state;
    }

    /** `select(selector)`. */
    method Select<T>(selector: Value -> T) returns (selected: T)
      ensures selected == selector(state)
    {
      selected := selector(state);
    }

    /** `subscribe(callback)`: appends the callback, duplicates included. */
    method Subscribe(callback: SubscriberId) returns (unsubscribe: Unsubscriber)
      modifies this
      ensures subscribers == old(subscribers) + [callback]
      ensures state == old(state) && notifications == old(notifications)
      ensures unsubscribe == Unsubscriber(callback)
    {
      subscribers := subscribers + [callback];
      unsubscribe := Unsubscriber(callback);
    }

    /** Calling the function `subscribe` returned, as written: it computes
        the list without the callback and returns it, but never stores it, so
        the store's subscribers stay as they were. */
    method Unsubscribe(unsubscribe: Unsubscriber) returns (filtered: seq<SubscriberId>)
      ensures filtered == Without(subscribers, unsubscribe.callback)
      ensures unsubscribe.callback in subscribers ==> unsubscribe.callback !in filtered
    {
      filtered := Without(subscribers, unsubscribe.callback);
    }

    /** What the unsubscribe function evidently means to do: store the
        filtered list, dropping every registration of the callback and
        keeping the others in order. */
    method RemoveSubscriber(unsubscribe: Unsubscriber)
      modifies this
      ensures subscribers == Without(old(subscribers), unsubscribe.callback)
      ensures unsubscribe.callback !in subscribers
      ensures state == old(state) && notifications == old(notifications)
    {
      subscribers := Without(subscribers, unsubscribe.callback);
    }

    /** `updateOnce(updater)`: on success the new state is committed and
        every subscriber is called with `(newState, previousState)`; a failing
        updater leaves state and subscribers untouched. */
    method UpdateOnce(updater: Updater) returns (r: Result<Value>)
      modifies this
      ensures r == updater(old(state))
      ensures subscribers == old(subscribers)
      ensures r.Ok? ==>
        && state == r.value
        && notifications == old(notifications) + NotifyAll(subscribers, r.value, old(state))
      ensures r.Err? ==> state == old(state) && notifications == old(notifications)
    {
      var previousState := state;
      r := updater(previousState);
      if r.Err? {
        return;
      }
      var newState := r.value;
      state := newState;
      for i := 0 to |subscribers|
        invariant state == newState && subscribers == old(subscribers)
        invariant notifications == old(notifications) + NotifyAll(subscribers[..i], newState, previousState)
      {
        notifications := notifications + [Notification(subscribers[i], newState, previousState)];
      }
      assert subscribers[..|subscribers|] == subscribers;
    }

    /** `update(updaters)`: the updaters run strictly in order, each on the
        state the previous one committed; the call fails with the first
        failure, keeping the earlier commits, and otherwise yields the final
        state. The outcome is the one `mergeUpdaters` gives. */
    method Update(request: UpdateRequest) returns (r: Result<Value>)
      modifies this
      ensures subscribers == old(subscribers)
      ensures state == LastCommitted(old(state), Commits(Steps(request), old(state)))
      ensures notifications == old(notifications) + NotifyTrace(subscribers, old(state), Commits(Steps(request), old(state)))
      ensures r == MergeUpdaters(Steps(request))(old(state))
      ensures r.Ok? ==> r.value == state
    {
      if request.InOrder? {
        var us := request.updaters;
        ghost var s0 := state;
        ghost var done: seq<Value> := [];
        for i := 0 to |us|
          invariant subscribers == old(subscribers)
          invariant Commits(us, s0) == done + Commits(us[i..], state)
          invariant state == LastCommitted(s0, done)
          invariant notifications == old(notifications) + NotifyTrace(subscribers, s0, done)
          invariant Reduce(us, Ok(s0)) == Reduce(us[i..], Ok(state))
        {
          assert us[i..][1..] == us[i + 1..];
          ghost var before := state;
          var step := UpdateOnce(us[i]);
          if step.Err? {
            assert Commits(us[i..], before) == [];
            assert Commits(us, s0) == done + [];
            assert Steps(request) == us && s0 == old(state);
            assert done + [] == done;
            ReduceRejected(us[i + 1..], step.error);
            return Err(step.error);
          }
          NotifyTraceAppend(subscribers, s0, done, step.value);
          done := done + [step.value];
        }
        assert us[|us|..] == [];
        assert Commits(us, s0) == done by {
          assert Commits(us[|us|..], state) == [];
          assert done + [] == done;
        }
      } else {
        var step := UpdateOnce(request.updater);
        assert Reduce([request.updater], Ok(old(state))) == step;
        assert [request.updater][1..] == [];
        assert Commits([request.updater], old(state)) == if step.Ok? then [step.value] else [];
        if step.Err? {
          return Err(step.error);
        }
        NotifyTraceAppend(subscribers, old(state), [], step.value);
        assert [] + [step.value] == [step.value];
      }
      r := Ok(state);
    }
  }

  /** `createStore(initialState)`. */
  method CreateStore(initialState: Value) returns (store: Store)
    ensures fresh(store)
    ensures store.state == initialState
    ensures store.subscribers == [] && store.notifications == []
  {
    store := new Store(initialState);
  }

  // ---------------------------------------------------------------------
  // What a sequence of commits guarantees
  // ---------------------------------------------------------------------

  /** `update` succeeds exactly when every updater commits, and then yields
      the last commit; when it fails, the failing updater is the one after
      the last commit, it ran on the last committed state, and its error is
      the one reported. */
  lemma {:induction false} CommitsMatchMerge(us: seq<Updater>, s: Value)
    ensures var cs := Commits(us, s);
      && |cs| <= |us|
      && (MergeUpdaters(us)(s).Ok? <==> |cs| == |us|)
      && (MergeUpdaters(us)(s).Ok? ==> MergeUpdaters(us)(s).value == LastCommitted(s, cs))
      && (MergeUpdaters(us)(s).Err? ==> MergeUpdaters(us)(s) == us[|cs|](LastCommitted(s, cs)))
  {
    CommitsMatchReduce(us, s);
  }

  lemma {:induction false} CommitsMatchReduce(us: seq<Updater>, s: Value)
    ensures var cs, out := Commits(us, s), Reduce(us, Ok(s));
      && |cs| <= |us|
      && (out.Ok? <==> |cs| == |us|)
      && (out.Ok? ==> out.value == LastCommitted(s, cs))
      && (out.Err? ==> out == us[|cs|](LastCommitted(s, cs)))
    decreases |us|
  {
    if us != [] {
      assert Reduce(us, Ok(s)) == Reduce(us[1..], us[0](s));
      match us[0](s)
      case Ok(t) =>
        CommitsMatchReduce(us[1..], t);
        var cs := Commits(us[1..], t);
        assert Commits(us, s) == [t] + cs;
        assert LastCommitted(s, [t] + cs) == LastCommitted(t, cs);
      case Err(e) =>
        ReduceRejected(us[1..], e);
        assert Commits(us, s) == [];
    }
  }

  /** Each commit is the result of its updater on the state the commit
      before it produced. */
  lemma {:induction false} CommitsChain(us: seq<Updater>, s: Value, j: nat)
    requires j < |Commits(us, s)|
    ensures j < |us|
    ensures us[j](Previous(s, Commits(us, s), j)) == Ok(Commits(us, s)[j])
    decreases j
  {
    match us[0](s)
    case Ok(t) =>
      if j > 0 {
        CommitsChain(us[1..], t, j - 1);
      }
    case Err(_) =>
  }

  lemma {:induction false} CommitsIgnoreLaterUpdaters(us: seq<Updater>, s: Value, tail: seq<Updater>)
    requires |Commits(us, s)| < |us|
    ensures Commits(us[..|Commits(us, s)| + 1] + tail, s) == Commits(us, s)
    decreases |us|
  {
    var k := |Commits(us, s)|;
    var vs := us[..k + 1] + tail;
    assert vs[0] == us[0];
    match us[0](s)
    case Ok(t) =>
      assert vs[1..] == us[1..][..k] + tail;
      CommitsIgnoreLaterUpdaters(us[1..], t, tail);
    case Err(e) =>
  }

  /** Updaters after a failing one never affect the outcome: replacing them
      by anything leaves the commits and the result as they were. */
  lemma LaterUpdatersNeverRun(us: seq<Updater>, s: Value, tail: seq<Updater>)
    requires |Commits(us, s)| < |us|
    ensures var k := |Commits(us, s)|;
      && Commits(us[..k + 1] + tail, s) == Commits(us, s)
      && MergeUpdaters(us[..k + 1] + tail)(s) == MergeUpdaters(us)(s)
  {
    var k := |Commits(us, s)|;
    var vs := us[..k + 1] + tail;
    CommitsIgnoreLaterUpdaters(us, s, tail);
    CommitsMatchMerge(us, s);
    CommitsMatchMerge(vs, s);
    assert vs[k] == us[k];
  }

  /** The notifications of a run: each commit notifies every subscriber in
      registration order, with that commit as the new state and the one
      before it as the previous state, and nothing else is notified. */
  lemma {:induction false} NotifyTraceAt(subs: seq<SubscriberId>, s: Value, cs: seq<Value>, j: nat, i: nat)
    requires j < |cs| && i < |subs|
    ensures |NotifyTrace(subs, s, cs)| == |cs| * |subs|
    ensures j * |subs| + i < |cs| * |subs|
    ensures NotifyTrace(subs, s, cs)[j * |subs| + i] == Notification(subs[i], cs[j], Previous(s, cs, j))
    decreases j
  {
    var n := |subs|;
    NotifyTraceLength(subs, cs[0], cs[1..]);
    assert |cs| * n == n + (|cs| - 1) * n;
    if j > 0 {
      NotifyTraceAt(subs, cs[0], cs[1..], j - 1, i);
      assert j * n + i == n + ((j - 1) * n + i);
    }
  }

  lemma {:induction false} NotifyTraceLength(subs: seq<SubscriberId>, s: Value, cs: seq<Value>)
    ensures |NotifyTrace(subs, s, cs)| == |cs| * |subs|
    decreases |cs|
  {
    if cs != [] {
      NotifyTraceLength(subs, cs[0], cs[1..]);
      assert |cs| * |subs| == |subs| + (|cs| - 1) * |subs|;
    }
  }

  // ---------------------------------------------------------------------
  // The unsubscribe function, as written and as intended
  // ---------------------------------------------------------------------

  /** Calling the returned unsubscribe function leaves the callback
      subscribed; the next update still calls it. */
  method UnsubscribedCallbackStillCalled() returns (subscribersAfter: seq<SubscriberId>, ghost calls: seq<Notification>)
    ensures subscribersAfter == [1]
    ensures calls == [Notification(1, Obj(map[]), Obj(map[]))]
  {
    var store := new Store(Obj(map[]));
    var unsubscribe := store.Subscribe(1);
    var filtered := store.Unsubscribe(unsubscribe);
    assert filtered == [];
    var result := store.Update(One(s => Ok(s)));
    subscribersAfter := store.subscribers;
    calls := store.notifications;
  }

  /** With the intended unsubscribe, the next update calls nobody. */
  method RemovedCallbackNotCalled() returns (subscribersAfter: seq<SubscriberId>, ghost calls: seq<Notification>)
    ensures subscribersAfter == []
    ensures calls == []
  {
    var store := new Store(Obj(map[]));
    var unsubscribe := store.Subscribe(1);
    store.RemoveSubscriber(unsubscribe);
    var result := store.Update(One(s => Ok(s)));
    subscribersAfter := store.subscribers;
    calls := store.notifications;
  }
}
