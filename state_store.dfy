/**
 * The nested state store behind every `getState`/`setState` and `getProps`/`setProps` call:
 * a JavaScript object tree addressed by dotted key paths such as "stat.health".
 *
 * Values are trees: a plain object is a string-keyed map of values, and everything else is a
 * primitive leaf. Reading a field of a primitive gives undefined; reading a field of null or
 * undefined throws; writing a field of anything but a plain object throws (class bodies are
 * strict-mode code).
 */
module StateStore {
  import opened Wrappers

  datatype Prim = Num(n: int) | Str(s: string) | Bool(b: bool)

  datatype Value =
    | Undefined
    | Null
    | Leaf(prim: Prim)
    | Obj(fields: map<string, Value>)

  /** `v === undefined || v === null` */
  predicate Nullish(v: Value) {
    v.Undefined? || v.Null?
  }

  /** JavaScript truthiness (integers stand for numbers, so NaN does not arise). */
  predicate Truthy(v: Value) {
    match v
    case Undefined => false
    case Null => false
    case Leaf(p) => p != Num(0) && p != Str("") && p != Bool(false)
    case Obj(_) => true
  }

  /** `v[k]` on a value that is not null or undefined. */
  function Child(v: Value, k: string): Value {
    if v.Obj? && k in v.fields then v.fields[k] else Undefined
  }

  /** `df` when `v` is null or undefined, otherwise `v`. */
  function OrDefault(v: Value, df: Value): Value {
    if Nullish(v) then df else v
  }

  // ---------------------------------------------------------------------------
  // Key paths: String.prototype.split(".") and its inverse
  // ---------------------------------------------------------------------------

  /** `s.split(".")`: the segments between the dots, always at least one (possibly empty). */
  function Split(s: string): (r: seq<string>)
    ensures |r| >= 1
    ensures forall i :: 0 <= i < |r| ==> '.' !in r[i]
  {
    if s == [] then [""]
    else
      var rest := Split(s[1..]);
      if s[0] == '.' then [""] + rest
      else [[s[0]] + rest[0]] + rest[1..]
  }

  /** `segs.join(".")` */
  function Join(segs: seq<string>): string
    requires |segs| >= 1
  {
    if |segs| == 1 then segs[0] else segs[0] + "." + Join(segs[1..])
  }

  /** Joining the segments of a split key gives the key back. */
  lemma {:induction false} JoinSplit(s: string)
    ensures Join(Split(s)) == s
  {
    if s != [] {
      var rest := Split(s[1..]);
      JoinSplit(s[1..]);
      if s[0] == '.' {
        assert Split(s) == [""] + rest;
        assert ([""] + rest)[1..] == rest;
      } else {
        var r := [[s[0]] + rest[0]] + rest[1..];
        assert Split(s) == r;
        if |rest| > 1 {
          assert r[1..] == rest[1..];
          assert Join(rest) == rest[0] + "." + Join(rest[1..]);
        }
      }
    }
  }

  /** A dot-free word in front of a key glues onto the key's first segment. */
  lemma {:induction false} SplitPrefix(w: string, t: string)
    requires '.' !in w
    ensures Split(w + t) == [w + Split(t)[0]] + Split(t)[1..]
  {
    if w != [] {
      assert (w + t)[1..] == w[1..] + t;
      SplitPrefix(w[1..], t);
      assert [w[0]] + (w[1..] + Split(t)[0]) == w + Split(t)[0];
    } else {
      assert w + t == t;
      assert w + Split(t)[0] == Split(t)[0];
      assert Split(t) == [Split(t)[0]] + Split(t)[1..];
    }
  }

  /** Splitting a join of dot-free segments gives the segments back. */
  lemma {:induction false} SplitJoin(segs: seq<string>)
    requires |segs| >= 1
    requires forall i :: 0 <= i < |segs| ==> '.' !in segs[i]
    ensures Split(Join(segs)) == segs
  {
    if |segs| == 1 {
      SplitPrefix(segs[0], "");
      assert segs[0] + "" == segs[0];
    } else {
      var t := Join(segs[1..]);
      SplitJoin(segs[1..]);
      assert "." + t != [] && ("." + t)[0] == '.' && ("." + t)[1..] == t;
      assert Split("." + t) == [""] + segs[1..];
      assert segs[0] + "." + t == segs[0] + ("." + t);
      SplitPrefix(segs[0], "." + t);
      assert segs[0] + "" == segs[0];
    }
  }

  // ---------------------------------------------------------------------------
  // Reading: getValue
  // ---------------------------------------------------------------------------

  /** Follows `path` from `v` one field at a time; throws when a container on the way is null or undefined. */
  function Walk(v: Value, path: seq<string>): (r: Result<Value>)
    ensures path == [] ==> r == Ok(v)
    ensures |path| == 1 && !Nullish(v) ==> r == Ok(Child(v, path[0]))
    ensures Nullish(v) && path != [] ==> r == TypeError
    decreases path
  {
    if path == [] then Ok(v)
    else if Nullish(v) then TypeError
    else Walk(Child(v, path[0]), path[1..])
  }

  /** Walking `p + q` is walking `p` and then walking `q` from where that ended, unless `p` threw. */
  lemma {:induction false} WalkConcat(v: Value, p: seq<string>, q: seq<string>)
    ensures Walk(v, p + q) == match Walk(v, p) case Ok(w) => Walk(w, q) case TypeError => TypeError
    decreases p
  {
    if p == [] {
      assert p + q == q;
    } else {
      assert (p + q)[1..] == p[1..] + q;
      if !Nullish(v) {
        WalkConcat(Child(v, p[0]), p[1..], q);
      }
    }
  }

  /** The container reached after the first `i` segments of `path` is null or undefined. */
  predicate BrokenAt(v: Value, path: seq<string>, i: nat)
    requires i <= |path|
  {
    Walk(v, path[..i]).Ok? && Nullish(Walk(v, path[..i]).value)
  }

  /** A walk throws exactly when it passes through a null or undefined container. */
  lemma {:induction false} WalkThrowsIff(v: Value, path: seq<string>)
    ensures Walk(v, path) == TypeError <==> exists i :: 0 <= i < |path| && BrokenAt(v, path, i)
    decreases path
  {
    if path != [] {
      assert path[..0] == [];
      if !Nullish(v) {
        var c := Child(v, path[0]);
        WalkThrowsIff(c, path[1..]);
        forall j | 0 <= j < |path| - 1
          ensures Walk(v, path[..j + 1]) == Walk(c, path[1..][..j])
        {
          assert path[..j + 1][1..] == path[1..][..j];
        }
        if Walk(v, path) == TypeError {
          var j :| 0 <= j < |path| - 1 && BrokenAt(c, path[1..], j);
          assert BrokenAt(v, path, j + 1);
        }
        if exists i :: 0 <= i < |path| && BrokenAt(v, path, i) {
          var i :| 0 <= i < |path| && BrokenAt(v, path, i);
          assert i != 0;
          assert BrokenAt(c, path[1..], i - 1);
        }
      } else {
        assert BrokenAt(v, path, 0);
      }
    }
  }

  /**
   * `StateObject.getValue(key, df)`: with no key, or when the stored value is not a plain object,
   * the whole value; otherwise the value at the dotted path; `df` when that is null or undefined.
   * The empty key stands for every falsy key.
   */
  function Lookup(root: Value, key: string, df: Value): (r: Result<Value>)
    ensures key == "" || !root.Obj? ==> r == Ok(OrDefault(root, df))
    ensures r.Ok? && Nullish(r.value) ==> r.value == df
  {
    if key == "" || !root.Obj? then Ok(OrDefault(root, df))
    else match Walk(root, Split(key))
      case TypeError => TypeError
      case Ok(v) => Ok(OrDefault(v, df))
  }

  /**
   * getValue throws exactly when some intermediate segment of the key leads to null or undefined
   * (a missing field reads as undefined).
   */
  lemma LookupThrowsIff(root: Value, key: string, df: Value)
    requires root.Obj? && key != ""
    ensures Lookup(root, key, df) == TypeError <==>
            exists i :: 1 <= i < |Split(key)| && BrokenAt(root, Split(key), i)
  {
    var segs := Split(key);
    WalkThrowsIff(root, segs);
    assert segs[..0] == [];
    assert !BrokenAt(root, segs, 0);
    assert Lookup(root, key, df) == TypeError <==> Walk(root, segs) == TypeError;
    if Walk(root, segs) == TypeError {
      var i :| 0 <= i < |segs| && BrokenAt(root, segs, i);
      assert 1 <= i < |segs| && BrokenAt(root, segs, i);
      assert exists j :: 1 <= j < |Split(key)| && BrokenAt(root, Split(key), j);
      assert Lookup(root, key, df) == TypeError;
    } else {
      forall i | 1 <= i < |segs|
        ensures !BrokenAt(root, segs, i)
      {
      }
    }
  }

  // ---------------------------------------------------------------------------
  // Writing: setValue
  // ---------------------------------------------------------------------------

  /** Every container on the way to the last segment of `path` is a plain object, so writing there succeeds. */
  ghost predicate Writable(t: Value, path: seq<string>)
    decreases path
  {
    path == [] || (t.Obj? && (|path| == 1 || Writable(Child(t, path[0]), path[1..])))
  }

  /** The tree `t` with `v` written at `path` (containers on the way are plain objects). */
  function Put(t: Value, path: seq<string>, v: Value): Value
    decreases path
  {
    if path == [] then v
    else if t.Obj? then Obj(t.fields[path[0] := Put(Child(t, path[0]), path[1..], v)])
    else t
  }

  /** After a write, reading the same path gives the written value. */
  lemma {:induction false} PutThenWalk(t: Value, path: seq<string>, v: Value)
    requires Writable(t, path)
    ensures Walk(Put(t, path, v), path) == Ok(v)
    decreases path
  {
    if path != [] {
      if |path| > 1 {
        PutThenWalk(Child(t, path[0]), path[1..], v);
      }
    }
  }

  /** A write leaves every path that branches off the written one (neither is a prefix of the other) as it was. */
  lemma {:induction false} PutFrame(t: Value, path: seq<string>, v: Value, q: seq<string>)
    requires Writable(t, path)
    requires !(path <= q) && !(q <= path)
    ensures Walk(Put(t, path, v), q) == Walk(t, q)
    decreases path
  {
    var t' := Put(t, path, v);
    assert t'.Obj? && t'.fields == t.fields[path[0] := Put(Child(t, path[0]), path[1..], v)];
    if q[0] == path[0] {
      assert |path| > 1;
      assert !(path[1..] <= q[1..]) && !(q[1..] <= path[1..]);
      PutFrame(Child(t, path[0]), path[1..], v, q[1..]);
    }
  }

  /** No segment after the first repeats the last segment before the end of the path. */
  predicate NoEarlyRepeat(segs: seq<string>)
    requires |segs| >= 1
  {
    forall i :: 1 <= i < |segs| - 1 ==> segs[i] != segs[|segs| - 1]
  }

  /**
   * How setValue(key, value) ended: normally, by a TypeError (the tree as written up to the throw),
   * or by writing `value` into itself (the tree as it was before that self-referencing write,
   * which a finite tree cannot hold).
   */
  datatype SetOutcome = Done(root: Value) | Thrown(root: Value) | Cyclic(root: Value)

  /**
   * The `splited.reduce(...)` of setValue from index `i` on: `cur` is the container reached so far
   * (`prevObj`), at path `at`. Every segment equal to the LAST segment is written to when it is
   * reached, and the walk then continues inside the written value.
   */
  function Reduce(t: Value, segs: seq<string>, i: nat, at: seq<string>, cur: Value,
                  written: bool, value: Value): (r: SetOutcome)
    requires 1 <= i <= |segs|
    ensures t.Obj? ==> r.root.Obj?
    ensures written && i < |segs| ==> !r.Done? && r.root == t
    decreases |segs| - i
  {
    if i == |segs| then Done(t)
    else
      var crnt := segs[i];
      if crnt == segs[|segs| - 1] then
        if written then (if cur.Obj? then Cyclic(t) else Thrown(t))
        else if !cur.Obj? then Thrown(t)
        else Reduce(Put(t, at + [crnt], value), segs, i + 1, at + [crnt], value, true, value)
      else if Nullish(cur) then Thrown(t)
      else Reduce(t, segs, i + 1, at + [crnt], Child(cur, crnt), written, value)
  }

  /**
   * `StateObject.setValue(key, value)` on the stored value `root`: a string key writes at its
   * dotted path, a plain-object key is merged in (`Object.assign`), any other truthy key does
   * nothing, a falsy key does nothing. When the stored value is null or undefined it has no
   * `constructor` to test, so a truthy key throws; any other stored value that is not a plain
   * object is replaced by the key itself.
   */
  function Store(root: Value, key: Value, value: Value): (r: SetOutcome)
    ensures !Truthy(key) ==> r == Done(root)
    ensures Truthy(key) && Nullish(root) ==> r == Thrown(root)
    ensures Truthy(key) && root.Leaf? ==> r == Done(key)
    ensures root.Obj? ==> r.root.Obj?
  {
    if !Truthy(key) then Done(root)
    else if Nullish(root) then Thrown(root)
    else if !root.Obj? then Done(key)
    else match key
      case Leaf(Str(s)) =>
        var segs := Split(s);
        if |segs| == 1 then Done(Obj(root.fields[s := value]))
        else Reduce(root, segs, 1, [segs[0]], Child(root, segs[0]), false, value)
      case Obj(m) => Done(Obj(root.fields + m))
      case _ => Done(root)
  }

  /**
   * The reduce from index `i` up to the first write at index `w` (no segment in between equals
   * the last one): it either throws before writing, or writes `value` at `segs[..w+1]` and goes on.
   */
  lemma {:induction false} ReduceUpToWrite(root: Value, segs: seq<string>, i: nat, cur: Value, value: Value, w: nat)
    requires 1 <= i <= w < |segs|
    requires segs[w] == segs[|segs| - 1]
    requires forall j :: i <= j < w ==> segs[j] != segs[|segs| - 1]
    ensures Reduce(root, segs, i, segs[..i], cur, false, value) ==
            if Writable(cur, segs[i..w + 1])
            then Reduce(Put(root, segs[..w + 1], value), segs, w + 1, segs[..w + 1], value, true, value)
            else Thrown(root)
    decreases w - i
  {
    assert segs[..i] + [segs[i]] == segs[..i + 1];
    if i < w {
      assert segs[i..w + 1][1..] == segs[i + 1..w + 1];
      if !Nullish(cur) {
        ReduceUpToWrite(root, segs, i + 1, Child(cur, segs[i]), value, w);
      }
    }
  }

  /** A non-empty key whose split has a single segment is that segment. */
  lemma SingleSegment(s: string)
    requires |Split(s)| == 1
    ensures Split(s) == [s]
  {
    JoinSplit(s);
  }

  /**
   * setValue on a plain object with a string key whose last segment does not occur earlier:
   * it writes `value` at the key's path when every container on the way is a plain object, and
   * otherwise throws without changing anything.
   */
  lemma StorePath(root: Value, s: string, value: Value)
    requires root.Obj? && s != ""
    requires NoEarlyRepeat(Split(s))
    ensures Store(root, Leaf(Str(s)), value) ==
            if Writable(root, Split(s)) then Done(Put(root, Split(s), value)) else Thrown(root)
  {
    var segs := Split(s);
    var n := |segs|;
    if n == 1 {
      SingleSegment(s);
    } else {
      ReduceUpToWrite(root, segs, 1, Child(root, segs[0]), value, n - 1);
      assert segs[..1] == [segs[0]];
      assert segs[..n] == segs;
      assert segs[1..n] == segs[1..];
    }
  }

  /** After a successful setValue(k, v), getValue(k, df) gives v (or df when v is null or undefined). */
  lemma LookupAfterStore(root: Value, s: string, value: Value, df: Value)
    requires root.Obj? && s != ""
    requires NoEarlyRepeat(Split(s)) && Writable(root, Split(s))
    ensures Store(root, Leaf(Str(s)), value).Done?
    ensures Lookup(Store(root, Leaf(Str(s)), value).root, s, df) == Ok(OrDefault(value, df))
  {
    StorePath(root, s, value);
    PutThenWalk(root, Split(s), value);
  }

  /** A successful setValue(k, v) leaves getValue unchanged on every key whose path branches off k's. */
  lemma StoreKeepsOtherKeys(root: Value, s: string, value: Value, k: string, df: Value)
    requires root.Obj? && s != "" && k != ""
    requires NoEarlyRepeat(Split(s)) && Writable(root, Split(s))
    requires !(Split(s) <= Split(k)) && !(Split(k) <= Split(s))
    ensures Lookup(Store(root, Leaf(Str(s)), value).root, k, df) == Lookup(root, k, df)
  {
    StorePath(root, s, value);
    PutFrame(root, Split(s), value, Split(k));
  }

  /**
   * When the last segment also occurs at an earlier index `i` (and nowhere before it), setValue
   * writes `value` at the shorter path `segs[..i+1]` already, and never ends normally afterwards.
   */
  lemma StoreWritesEarly(root: Value, s: string, value: Value, i: nat)
    requires root.Obj?
    requires 1 <= i < |Split(s)| - 1
    requires Split(s)[i] == Split(s)[|Split(s)| - 1]
    requires forall j :: 1 <= j < i ==> Split(s)[j] != Split(s)[|Split(s)| - 1]
    ensures !Store(root, Leaf(Str(s)), value).Done?
    ensures Store(root, Leaf(Str(s)), value).root ==
            if Writable(root, Split(s)[..i + 1]) then Put(root, Split(s)[..i + 1], value) else root
  {
    var segs := Split(s);
    ReduceUpToWrite(root, segs, 1, Child(root, segs[0]), value, i);
    assert segs[..1] == [segs[0]];
    assert segs[..i + 1][1..] == segs[1..i + 1];
  }

  /** setValue(obj) merges obj's fields over the stored ones and keeps every other field. */
  lemma StoreMerges(root: Value, m: map<string, Value>, value: Value, k: string)
    requires root.Obj?
    ensures Store(root, Obj(m), value).Done?
    ensures Child(Store(root, Obj(m), value).root, k) == if k in m then m[k] else Child(root, k)
  {
  }

  /**
   * The object holding one piece of state; `constructor(obj={})` stores `obj`, and an omitted
   * (undefined) argument stands for a fresh empty object.
   */
  class StateObject {
    var value: Value

    constructor(obj: Value)
      ensures obj.Undefined? ==> value == Obj(map[])
      ensures !obj.Undefined? ==> value == obj
    {
      value := if obj.Undefined? then Obj(map[]) else obj;
    }

    /** `getValue(key, df)` */
    function GetValue(key: string, df: Value): (r: Result<Value>)
      reads this
      ensures r == Lookup(value, key, df)
    {
      Lookup(value, key, df)
    }

    /** `setValue(key, value)`: the stored value becomes what the write left behind, thrown or not. */
    method SetValue(key: Value, v: Value) returns (outcome: SetOutcome)
      modifies this
      ensures outcome == Store(old(value), key, v)
      ensures value == outcome.root
    {
      outcome := Store(value, key, v);
      value := outcome.root;
    }
  }
}
