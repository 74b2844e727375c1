/** JavaScript values and the few built-in operations on them that the store's
    core relies on: object spread, property access, property-key conversion and
    splitting a dotted path. */
module JsValues {

  /** A JavaScript value as the store sees it. Objects are plain records keyed
      by property name; a property explicitly set to `undefined` is a key that
      maps to `Undef`. */
  datatype Value =
    | Undef
    | Null
    | Bool(b: bool)
    | Num(n: int)
    | Str(s: string)
    | Obj(fields: map<string, Value>)

  /** What a thrown exception or a rejected promise carries. */
  datatype Error = TypeError | Thrown(reason: Value)

  datatype Result<T> = Ok(value: T) | Err(error: Error)

  /** The own properties that `{ ...v }` copies: those of an object, none
      for `undefined`, `null`, booleans and numbers. */
  function Spread(v: Value): map<string, Value>
  {
    if v.Obj? then v.fields else map[]
  }

  /** `m[k]` on a plain object: `undefined` for a missing key. */
  function Field(m: map<string, Value>, k: string): Value
  {
    if k in m then m[k] else Undef
  }

  /** Property access `v[k]`: throws on `undefined` and `null`, reads the
      field of an object, and yields `undefined` on the other primitives. */
  function Member(v: Value, k: string): (r: Result<Value>)
    ensures r.Err? <==> v == Undef || v == Null
    ensures v.Obj? ==> r == Ok(Field(v.fields, k))
  {
    match v
    case Undef => Err(TypeError)
    case Null => Err(TypeError)
    case Obj(m) => Ok(Field(m, k))
    case _ => Ok(Undef)
  }

  function Digit(d: nat): char
    requires d < 10
  {
    "0123456789"[d]
  }

  function NatToString(n: nat): string
    decreases n
  {
    if n < 10 then [Digit(n)] else NatToString(n / 10) + [Digit(n % 10)]
  }

  /** The property key a value becomes when used as `o[v]` or `{ [v]: … }`. */
  function PropertyKey(v: Value): string
  {
    match v
    case Undef => "undefined"
    case Null => "null"
    case Bool(b) => if b then "true" else "false"
    case Num(n) => if n < 0 then "-" + NatToString(-n) else NatToString(n)
    case Str(s) => s
    case Obj(_) => "[object Object]"
  }

  /** `s.split(".")`: the segments between dots, in order; always at least
      one segment, none containing a dot. */
  function Split(s: string): (segs: seq<string>)
    ensures |segs| >= 1
    ensures forall i :: 0 <= i < |segs| ==> '.' !in segs[i]
    decreases |s|
  {
    if |s| == 0 then [""]
    else
      var rest := Split(s[1..]);
      if s[0] == '.' then [""] + rest
      else [[s[0]] + rest[0]] + rest[1..]
  }

  /** `segs.join(".")`. */
  function Join(segs: seq<string>): string
    requires |segs| >= 1
    decreases |segs|
  {
    if |segs| == 1 then segs[0] else segs[0] + "." + Join(segs[1..])
  }

  /** Joining the segments of a split gives back the path. */
  lemma {:induction false} JoinSplit(s: string)
    ensures Join(Split(s)) == s
    decreases |s|
  {
    if |s| > 0 {
      var rest := Split(s[1..]);
      JoinSplit(s[1..]);
      if s[0] == '.' {
        assert Split(s) == [""] + rest;
        assert Join(Split(s)) == "" + "." + Join(rest);
        assert s == [s[0]] + s[1..];
      } else {
        var segs := [[s[0]] + rest[0]] + rest[1..];
        assert Split(s) == segs;
        assert segs[1..] == rest[1..];
        if |rest| == 1 {
          assert Join(segs) == [s[0]] + Join(rest);
        } else {
          assert Join(segs) == [s[0]] + rest[0] + "." + Join(rest[1..]);
          assert Join(rest) == rest[0] + "." + Join(rest[1..]);
        }
        assert s == [s[0]] + s[1..];
      }
    }
  }

  /** A dot-free prefix glues onto the first segment of what follows it. */
  lemma {:induction false} SplitDotFreePrefix(a: string, t: string)
    requires '.' !in a
    ensures Split(a + t) == [a + Split(t)[0]] + Split(t)[1..]
    decreases |a|
  {
    if |a| > 0 {
      assert '.' !in a[1..] by {
        forall i | 0 <= i < |a[1..]| ensures a[1..][i] != '.' { assert a[1..][i] == a[i + 1]; }
      }
      SplitDotFreePrefix(a[1..], t);
      assert (a + t)[0] == a[0];
      assert (a + t)[1..] == a[1..] + t;
      assert a[0] != '.' by { assert a[0] == a[0..1][0]; }
      assert [a[0]] + (a[1..] + Split(t)[0]) == a + Split(t)[0];
    } else {
      assert a + t == t;
      assert a + Split(t)[0] == Split(t)[0];
      assert Split(t) == [Split(t)[0]] + Split(t)[1..];
    }
  }

  /** A path without dots is a single segment. */
  lemma SplitDotFree(a: string)
    requires '.' !in a
    ensures Split(a) == [a]
  {
    SplitDotFreePrefix(a, "");
    assert a + "" == a;
  }

  /** Splitting the join of dot-free segments gives back the segments. */
  lemma {:induction false} SplitJoin(segs: seq<string>)
    requires |segs| >= 1
    requires forall i :: 0 <= i < |segs| ==> '.' !in segs[i]
    ensures Split(Join(segs)) == segs
    decreases |segs|
  {
    if |segs| == 1 {
      SplitDotFree(segs[0]);
    } else {
      var tail := Join(segs[1..]);
      SplitJoin(segs[1..]);
      SplitDotFreePrefix(segs[0], "." + tail);
      assert Split("." + tail) == [""] + Split(tail) by {
        assert ("." + tail)[1..] == tail;
      }
      assert segs[0] + "." + tail == segs[0] + ("." + tail);
      assert segs[0] + "" == segs[0];
      assert segs == [segs[0]] + segs[1..];
    }
  }
}
