/** The path lens (`set`, `get`) and the updater combinators built on it
    (`mergeUpdaters`, `updateInSequence`, `createCustomPartialUpdater`,
    `createPartialUpdater`) of src/utils.js. */
module Utils {
  import opened JsValues

  // ---------------------------------------------------------------------
  // Path lens
  // ---------------------------------------------------------------------

  /** The original nodes that `set` visits when it follows `segs` from `v`:
      a missing segment (or a non-object) leads to a node with no properties. */
  function Descend(v: Value, segs: seq<string>): Value
    decreases |segs|
  {
    if segs == [] then v else Descend(Field(Spread(v), segs[0]), segs[1..])
  }

  /** What `set` builds: a copy of `o` whose key `segs[0]` holds a copy of
      the next node with the rest of the path written, and so on down to the
      last segment, which holds `x`. */
  function Write(o: Value, segs: seq<string>, x: Value): Value
    requires |segs| >= 1
    decreases |segs|
  {
    var m := Spread(o);
    Obj(m[segs[0] := if |segs| == 1 then x else Write(Field(m, segs[0]), segs[1..], x)])
  }

  /** What `get` reads: follow the segments, stop with `undefined` at the
      first one that yields `undefined`, throw where the current value is
      `null` or `undefined`. */
  function Lookup(v: Value, segs: seq<string>): Result<Value>
    decreases |segs|
  {
    if segs == [] then Ok(v)
    else
      match Member(v, segs[0])
      case Err(e) => Err(e)
      case Ok(c) => if c == Undef then Ok(Undef) else Lookup(c, segs[1..])
  }

  /** `set(object, path, value)`, with `root` for `object`. The source walks
      a pointer `temp` down the fresh copies and assigns through it; with
      values, the copies made on the way down are linked back together on
      the way up. */
  method Set(root: Value, path: string, value: Value) returns (r: Value)
    ensures r == Write(root, Split(path), value)
  {
    var a := Split(path);
    ghost var nodes := [root];
    var copies := [Spread(root)];
    for i := 0 to |a| - 1
      invariant |nodes| == |copies| == i + 1
      invariant nodes[0] == root
      invariant forall j :: 0 <= j <= i ==> copies[j] == Spread(nodes[j])
      invariant forall j :: 0 < j <= i ==> nodes[j] == Field(copies[j - 1], a[j - 1])
    {
      var n := a[i];
      var copy: map<string, Value>;
      if n in copies[i] {
        copy := Spread(copies[i][n]);
      } else {
        copy := map[];
      }
      nodes := nodes + [Field(copies[i], n)];
      copies := copies + [copy];
    }
    var k := |a| - 1;
    var acc := Obj(copies[k][a[k] := value]);
    while k > 0
      invariant 0 <= k < |a|
      invariant acc == Write(nodes[k], a[k..], value)
    {
      assert a[k - 1..][1..] == a[k..];
      k := k - 1;
      acc := Obj(copies[k][a[k] := acc]);
    }
    r := acc;
  }

  /** `get(obj, path)`. */
  method Get(obj: Value, path: string) returns (r: Result<Value>)
    ensures r == Lookup(obj, Split(path))
  {
    var paths := Split(path);
    var current := obj;
    for i := 0 to |paths|
      invariant Lookup(obj, paths) == Lookup(current, paths[i..])
    {
      assert paths[i..][1..] == paths[i + 1..];
      var step := Member(current, paths[i]);
      if step.Err? {
        return Err(step.error);
      }
      if step.value == Undef {
        return Ok(Undef);
      }
      current := step.value;
    }
    r := Ok(current);
  }

  /** Reading back what was just written yields it. */
  lemma {:induction false} GetAfterSet(o: Value, segs: seq<string>, x: Value)
    requires |segs| >= 1
    ensures Lookup(Write(o, segs, x), segs) == Ok(x)
    decreases |segs|
  {
    if |segs| > 1 {
      GetAfterSet(Field(Spread(o), segs[0]), segs[1..], x);
    }
  }

  /** The round trip on dotted paths, as the methods see it. */
  lemma GetAfterSetPath(o: Value, path: string, x: Value)
    ensures Lookup(Write(o, Split(path), x), Split(path)) == Ok(x)
  {
    GetAfterSet(o, Split(path), x);
  }

  /** At every level on the path the result holds a fresh object with the
      original node's keys plus the next segment, every other key keeping its
      original value. */
  lemma {:induction false} SetCopiesEachLevel(o: Value, segs: seq<string>, x: Value, i: nat)
    requires i < |segs|
    ensures var before, after := Descend(o, segs[..i]), Descend(Write(o, segs, x), segs[..i]);
      && after.Obj?
      && after.fields.Keys == Spread(before).Keys + {segs[i]}
      && forall k :: k in Spread(before) && k != segs[i] ==> after.fields[k] == Spread(before)[k]
    decreases i
  {
    var m := Spread(o);
    var r := Write(o, segs, x);
    if i == 0 {
      assert segs[..0] == [];
    } else {
      var child := Field(m, segs[0]);
      assert Field(Spread(r), segs[0]) == Write(child, segs[1..], x);
      SetCopiesEachLevel(child, segs[1..], x, i - 1);
      assert segs[..i][0] == segs[0];
      assert segs[..i][1..] == segs[1..][..i - 1];
      assert segs[1..][i - 1] == segs[i];
    }
  }

  /** A segment missing from the original (or holding a non-object) is
      created as an object whose only key is the next segment. */
  lemma MissingSegmentCreated(o: Value, segs: seq<string>, x: Value, i: nat)
    requires i < |segs|
    requires !Descend(o, segs[..i]).Obj?
    ensures Descend(Write(o, segs, x), segs[..i]).Obj?
    ensures Descend(Write(o, segs, x), segs[..i]).fields.Keys == {segs[i]}
  {
    SetCopiesEachLevel(o, segs, x, i);
  }

  /** A one-segment path only replaces that key of the root. */
  lemma SingleSegmentSet(o: Value, k: string, x: Value)
    ensures Write(o, [k], x) == Obj(Spread(o)[k := x])
  {
  }

  /** Writing at `segs` does not change what `get` reads at any path `q`
      that leaves `segs` at position `i` (a sibling at some level), wherever
      that read succeeded before. */
  lemma {:induction false} GetOffPathUnchanged(o: Value, segs: seq<string>, x: Value, q: seq<string>, i: nat)
    requires i < |segs| && i < |q|
    requires q[..i] == segs[..i] && q[i] != segs[i]
    requires Lookup(o, q).Ok?
    ensures Lookup(Write(o, segs, x), q) == Lookup(o, q)
    decreases i
  {
    var m := Spread(o);
    var r := Write(o, segs, x);
    assert o != Undef && o != Null;
    if i == 0 {
      assert Member(r, q[0]) == Member(o, q[0]);
    } else {
      assert q[0] == q[..i][0] == segs[..i][0] == segs[0];
      var c := Field(m, segs[0]);
      assert Member(o, q[0]) == Ok(c);
      var c' := if c.Obj? then c else Obj(map[]);
      assert Write(c, segs[1..], x) == Write(c', segs[1..], x);
      assert Member(r, q[0]) == Ok(Write(c', segs[1..], x));
      assert Lookup(c', q[1..]) == Lookup(o, q) by {
        if !c.Obj? {
          assert Member(c', q[1]) == Ok(Undef);
          if c != Undef {
            assert Member(c, q[1]) == Ok(Undef);
          }
        }
      }
      assert q[1..][..i - 1] == segs[1..][..i - 1] by {
        assert q[1..][..i - 1] == q[..i][1..];
        assert segs[1..][..i - 1] == segs[..i][1..];
      }
      GetOffPathUnchanged(c', segs[1..], x, q[1..], i - 1);
    }
  }

  // ---------------------------------------------------------------------
  // Updaters and their combinators
  // ---------------------------------------------------------------------

  /** An updater maps a (sub-)state to its successor or fails; an awaited
      promise becomes a plain step. */
  type Updater = Value -> Result<Value>

  /** A parameterised updater, `(...rest) => state => …`; arguments the
      caller leaves out are `undefined`. */
  type UpdaterFactory = seq<Value> -> Updater

  /** `promise.then(updater)`: a rejection skips the updater. */
  function Then(p: Result<Value>, u: Updater): Result<Value>
  {
    match p
    case Ok(v) => u(v)
    case Err(e) => Err(e)
  }

  /** `updaters.reduce((p, u) => p.then(u), p)`. */
  function Reduce(us: seq<Updater>, p: Result<Value>): Result<Value>
    decreases |us|
  {
    if us == [] then p else Reduce(us[1..], Then(p, us[0]))
  }

  /** `mergeUpdaters(...rest)`: one updater that threads the state through
      every updater from left to right. */
  function MergeUpdaters(us: seq<Updater>): (merged: Updater)
    ensures forall s :: merged(s) == Composition(us, s)
  {
    ReduceIsComposition(us);
    s => Reduce(us, Ok(s))
  }

  /** Reference definition of the composition: `un(… u1(s))`, the last
      updater applied to what the others produced. */
  function Composition(us: seq<Updater>, s: Value): Result<Value>
    decreases |us|
  {
    if us == [] then Ok(s) else Then(Composition(us[..|us| - 1], s), us[|us| - 1])
  }

  /** Once rejected, a chain stays rejected with the same error. */
  lemma {:induction false} ReduceRejected(us: seq<Updater>, e: Error)
    ensures Reduce(us, Err(e)) == Err(e)
    decreases |us|
  {
    if us != [] {
      ReduceRejected(us[1..], e);
    }
  }

  lemma {:induction false} ReduceAppend(us: seq<Updater>, u: Updater, p: Result<Value>)
    ensures Reduce(us + [u], p) == Then(Reduce(us, p), u)
    decreases |us|
  {
    if us != [] {
      assert (us + [u])[1..] == us[1..] + [u];
      ReduceAppend(us[1..], u, Then(p, us[0]));
    }
  }

  /** The left-to-right fold is `un(… u1(s))`; with no updaters it
      yields `s`. */
  lemma {:induction false} ReduceComposes(us: seq<Updater>, s: Value)
    ensures Reduce(us, Ok(s)) == Composition(us, s)
    decreases |us|
  {
    if us != [] {
      var init := us[..|us| - 1];
      ReduceComposes(init, s);
      assert us == init + [us[|us| - 1]];
      ReduceAppend(init, us[|us| - 1], Ok(s));
    }
  }

  lemma ReduceIsComposition(us: seq<Updater>)
    ensures forall s :: Reduce(us, Ok(s)) == Composition(us, s)
  {
    forall s
      ensures Reduce(us, Ok(s)) == Composition(us, s)
    {
      ReduceComposes(us, s);
    }
  }

  /** Merging a concatenation runs the first merge, then the second. */
  lemma {:induction false} MergeUpdatersConcat(a: seq<Updater>, b: seq<Updater>, s: Value)
    ensures MergeUpdaters(a + b)(s) == Then(MergeUpdaters(a)(s), MergeUpdaters(b))
    decreases |a|
  {
    if a == [] {
      assert a + b == b;
    } else {
      assert (a + b)[1..] == a[1..] + b;
      match a[0](s)
      case Ok(t) => MergeUpdatersConcat(a[1..], b, t);
      case Err(e) =>
        ReduceRejected(a[1..] + b, e);
        ReduceRejected(a[1..], e);
    }
  }

  /** Updaters that agree step by step thread every state to the same
      outcome. */
  lemma {:induction false} ReduceAgrees(us: seq<Updater>, vs: seq<Updater>, p: Result<Value>)
    requires |us| == |vs|
    requires forall i, s :: 0 <= i < |us| ==> us[i](s) == vs[i](s)
    ensures Reduce(us, p) == Reduce(vs, p)
    decreases |us|
  {
    if us != [] {
      assert Then(p, us[0]) == Then(p, vs[0]);
      ReduceAgrees(us[1..], vs[1..], Then(p, us[0]));
    }
  }

  /** `updateInSequence(...rest)`: the updaters, as a list, in the order
      given. */
  function UpdateInSequence(us: seq<Updater>): (sequence: seq<Updater>)
    ensures |sequence| == |us|
    ensures forall i, s :: 0 <= i < |us| ==> sequence[i](s) == us[i](s)
  {
    us
  }

  /** How `state => get(state, path)` and friends read a sub-state. */
  type Reader = Value -> Result<Value>

  /** How `(state, newPartialState) => set(state, path, newPartialState)`
      and friends write one back. */
  type Writer = (Value, Value) -> Result<Value>

  /** One argument of `createCustomPartialUpdater(reader, writer)(...updaters)`:
      a function, a non-null object of functions, or anything else. */
  datatype UpdaterArg =
    | FnArg(factory: UpdaterFactory)
    | ObjArg(table: map<string, UpdaterFactory>)
    | NonUpdater

  /** What that call returns: `undefined`, one wrapped function, an array of
      them, or an object of them. */
  datatype Wrapped =
    | Undefined
    | Single(factory: UpdaterFactory)
    | Many(factories: seq<UpdaterFactory>)
    | Keyed(table: map<string, UpdaterFactory>)

  /** The body of a wrapped updater: read the sub-state, run the updater on
      it, write its result back into the whole state. */
  function ApplyPartial(reader: Reader, writer: Writer, f: UpdaterFactory, args: seq<Value>, state: Value): Result<Value>
  {
    match reader(state)
    case Err(e) => Err(e)
    case Ok(partial) =>
      match f(args)(partial)
      case Err(e) => Err(e)
      case Ok(newPartial) => writer(state, newPartial)
  }

  function Lift(reader: Reader, writer: Writer, f: UpdaterFactory): UpdaterFactory
  {
    args => state => ApplyPartial(reader, writer, f, args, state)
  }

  /** A non-function met by `updaters.map(…)` fails with a TypeError when the
      wrapped updater is run. */
  function AsFactory(a: UpdaterArg): UpdaterFactory
  {
    if a.FnArg? then a.factory else _ => _ => Err(TypeError)
  }

  /** `createCustomPartialUpdater(reader, writer)(...updaters)`: the shape of
      the result follows the first argument, and every wrapped updater runs
      the corresponding updater on the sub-state. */
  function CreateCustomPartialUpdater(reader: Reader, writer: Writer, updaters: seq<UpdaterArg>): (w: Wrapped)
    ensures w.Undefined? <==> |updaters| == 0 || updaters[0].NonUpdater?
    ensures w.Single? <==> |updaters| == 1 && updaters[0].FnArg?
    ensures w.Many? <==> |updaters| > 1 && updaters[0].FnArg?
    ensures w.Keyed? <==> |updaters| >= 1 && updaters[0].ObjArg?
    ensures w.Many? ==> |w.factories| == |updaters|
    ensures w.Keyed? ==> w.table.Keys == updaters[0].table.Keys
    ensures w.Single? ==> forall args, s ::
      w.factory(args)(s) == ApplyPartial(reader, writer, updaters[0].factory, args, s)
    ensures w.Many? ==> forall i, args, s :: 0 <= i < |updaters| ==>
      w.factories[i](args)(s) == ApplyPartial(reader, writer, AsFactory(updaters[i]), args, s)
    ensures w.Keyed? ==> forall k, args, s :: k in w.table ==>
      w.table[k](args)(s) == ApplyPartial(reader, writer, updaters[0].table[k], args, s)
  {
    if |updaters| > 0 && updaters[0].FnArg? then
      var partialUpdaters := seq(|updaters|, i requires 0 <= i < |updaters| => Lift(reader, writer, AsFactory(updaters[i])));
      if |partialUpdaters| > 1 then Many(partialUpdaters) else Single(partialUpdaters[0])
    else if |updaters| > 0 && updaters[0].ObjArg? then
      var table := updaters[0].table;
      Keyed(map k | k in table :: Lift(reader, writer, table[k]))
    else
      Undefined
  }

  /** `state => get(state, path)`. */
  function PathReader(path: string): Reader
  {
    s => Lookup(s, Split(path))
  }

  /** `(state, newPartialState) => set(state, path, newPartialState)`. */
  function PathWriter(path: string): Writer
  {
    (s, np) => Ok(Write(s, Split(path), np))
  }

  /** `set(s, path, u(get(s, path)))`, failing when the read or `u` fails. */
  function AtPath(path: string, u: Updater, s: Value): Result<Value>
  {
    match Lookup(s, Split(path))
    case Err(e) => Err(e)
    case Ok(partial) =>
      match u(partial)
      case Err(e) => Err(e)
      case Ok(np) => Ok(Write(s, Split(path), np))
  }

  /** `createPartialUpdater(path)(...updaters)`: the shapes of
      `createCustomPartialUpdater`, where every wrapped updater gets the
      sub-state at `path`, runs its updater on it and sets the result back
      at `path`. */
  function CreatePartialUpdater(path: string, updaters: seq<UpdaterArg>): (w: Wrapped)
    ensures w.Undefined? <==> |updaters| == 0 || updaters[0].NonUpdater?
    ensures w.Single? <==> |updaters| == 1 && updaters[0].FnArg?
    ensures w.Many? <==> |updaters| > 1 && updaters[0].FnArg?
    ensures w.Keyed? <==> |updaters| >= 1 && updaters[0].ObjArg?
    ensures w.Many? ==> |w.factories| == |updaters|
    ensures w.Keyed? ==> w.table.Keys == updaters[0].table.Keys
    ensures w.Single? ==> forall args, s ::
      w.factory(args)(s) == AtPath(path, updaters[0].factory(args), s)
    ensures w.Many? ==> forall i, args, s :: 0 <= i < |updaters| ==>
      w.factories[i](args)(s) == AtPath(path, AsFactory(updaters[i])(args), s)
    ensures w.Keyed? ==> forall k, args, s :: k in w.table ==>
      w.table[k](args)(s) == AtPath(path, updaters[0].table[k](args), s)
  {
    CreateCustomPartialUpdater(PathReader(path), PathWriter(path), updaters)
  }

  /** A wrapped updater bound to a root key: it throws on an `undefined` or
      `null` state, and otherwise runs `u` on the key's value and stores the
      result under the key of a copy of the state. */
  function AtRootKey(key: string, u: Updater, s: Value): Result<Value>
  {
    if s == Undef || s == Null then Err(TypeError)
    else
      match u(Field(Spread(s), key))
      case Err(e) => Err(e)
      case Ok(np) => Ok(Obj(Spread(s)[key := np]))
  }

  /** At a dot-free path, getting and setting back touch only that root key. */
  lemma AtPathRootKey(key: string, u: Updater, s: Value)
    requires '.' !in key
    ensures AtPath(key, u, s) == AtRootKey(key, u, s)
  {
    SplitDotFree(key);
    assert [key][1..] == [];
    if s != Undef && s != Null {
      assert Lookup(s, [key]) == Ok(Field(Spread(s), key));
    }
  }

  /** `createPartialUpdater(key)(...updaters)` for a dot-free key: every
      wrapped updater works on that root key alone. */
  function CreateRootKeyUpdater(key: string, updaters: seq<UpdaterArg>): (w: Wrapped)
    requires '.' !in key
    ensures w.Single? <==> |updaters| == 1 && updaters[0].FnArg?
    ensures w.Keyed? <==> |updaters| >= 1 && updaters[0].ObjArg?
    ensures w.Keyed? ==> w.table.Keys == updaters[0].table.Keys
    ensures w.Single? ==> forall args, s ::
      w.factory(args)(s) == AtRootKey(key, updaters[0].factory(args), s)
    ensures w.Keyed? ==> forall k, args, s :: k in w.table ==>
      w.table[k](args)(s) == AtRootKey(key, updaters[0].table[k](args), s)
  {
    AtPathRootKeyAll(key);
    CreatePartialUpdater(key, updaters)
  }

  lemma AtPathRootKeyAll(key: string)
    requires '.' !in key
    ensures forall u, s :: AtPath(key, u, s) == AtRootKey(key, u, s)
  {
    forall u, s
      ensures AtPath(key, u, s) == AtRootKey(key, u, s)
    {
      AtPathRootKey(key, u, s);
    }
  }

  /** A path-bound partial updater fails exactly when reading the sub-state
      or the wrapped updater fails, with that error; otherwise `get` at the
      path yields the wrapped updater's output and every root key other than
      the first segment is unchanged. */
  lemma PartialUpdaterStaysOnPath(path: string, f: UpdaterFactory, args: seq<Value>, s: Value)
    ensures var segs := Split(path);
      var out := CreatePartialUpdater(path, [FnArg(f)]).factory(args)(s);
      match Lookup(s, segs)
      case Err(e) => out == Err(e)
      case Ok(partial) =>
        match f(args)(partial)
        case Err(e) => out == Err(e)
        case Ok(np) =>
          && out.Ok?
          && Lookup(out.value, segs) == Ok(np)
          && out.value.Obj?
          && out.value.fields.Keys == Spread(s).Keys + {segs[0]}
          && forall k :: k in Spread(s) && k != segs[0] ==> out.value.fields[k] == Spread(s)[k]
  {
    var segs := Split(path);
    match Lookup(s, segs)
    case Err(e) =>
    case Ok(partial) =>
      match f(args)(partial)
      case Err(e) =>
      case Ok(np) =>
        GetAfterSet(s, segs, np);
        SetCopiesEachLevel(s, segs, np, 0);
        assert segs[..0] == [];
  }

  /** Bound to a dot-free key of an object state, a partial updater runs
      the wrapped updater on that key's value and stores the result under
      the key, leaving the other keys as they were. */
  lemma PartialUpdaterAtRootKey(key: string, f: UpdaterFactory, args: seq<Value>, s: Value)
    requires '.' !in key
    requires s.Obj?
    ensures ApplyPartial(PathReader(key), PathWriter(key), f, args, s) ==
      match f(args)(Field(s.fields, key))
      case Ok(np) => Ok(Obj(s.fields[key := np]))
      case Err(e) => Err(e)
  {
    SplitDotFree(key);
    assert Lookup(s, [key]) == Ok(Field(s.fields, key));
  }
}
