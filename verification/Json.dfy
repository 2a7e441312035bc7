/** JSON values as Go's encoding/json decodes them, and dotted claim paths. */
module Json {
  import opened Basics

  type Object = map<string, Value>

  datatype Value =
    | Null
    | Bool(b: bool)
    | Number(n: real)
    | String(s: string)
    | Array(elems: seq<Value>)
    | Obj(fields: Object)

  /** The string held by v, or "" when v is anything else. */
  function StringOf(v: Value): string {
    if v.String? then v.s else ""
  }

  /** The string stored under `key`, or "" when the key is absent or not a string. */
  function StringAt(m: Object, key: string): string {
    if key in m then StringOf(m[key]) else ""
  }

  /** A text is read only from a string; anything else, or nothing, reads as the empty text. */
  lemma StringAtIff(m: Object, key: string, t: string)
    ensures StringAt(m, key) == t
            <==> (key in m && m[key] == String(t)) || (t == "" && !(key in m && m[key].String?))
  {
  }

  // ---------------------------------------------------------------- splitting at dots

  function Split(s: string): (r: seq<string>)
    ensures |r| >= 1
  {
    if s == "" then [""] else PutFirst(s[0], Split(s[1..]))
  }

  /** The pieces once one more character stands in front. */
  function PutFirst(c: char, pieces: seq<string>): (r: seq<string>)
    requires pieces != []
    ensures r != []
  {
    if c == '.' then [""] + pieces else [[c] + pieces[0]] + pieces[1..]
  }

  function Join(segs: seq<string>): string
    requires segs != []
  {
    if |segs| == 1 then segs[0] else segs[0] + "." + Join(segs[1..])
  }

  lemma JoinPutFirst(c: char, pieces: seq<string>)
    requires pieces != []
    ensures Join(PutFirst(c, pieces)) == [c] + Join(pieces)
  {
    if c == '.' {
      assert PutFirst(c, pieces)[1..] == pieces;
    } else {
      assert PutFirst(c, pieces)[1..] == pieces[1..];
    }
  }

  lemma {:induction false} JoinSplit(s: string)
    ensures Join(Split(s)) == s
  {
    if s != "" {
      JoinSplit(s[1..]);
      JoinPutFirst(s[0], Split(s[1..]));
      assert s == [s[0]] + s[1..];
    }
  }

  lemma {:induction false} SplitWord(w: string)
    requires '.' !in w
    ensures Split(w) == [w]
  {
    if w != "" {
      SplitWord(w[1..]);
      assert w == [w[0]] + w[1..];
    }
  }

  lemma PutFirstAppend(c: char, a: seq<string>, b: seq<string>)
    requires a != []
    ensures PutFirst(c, a + b) == PutFirst(c, a) + b
  {
    assert (a + b)[1..] == a[1..] + b;
  }

  lemma {:induction false} SplitAtDot(p: string, q: string)
    ensures Split(p + "." + q) == Split(p) + Split(q)
  {
    var all := p + "." + q;
    if p == "" {
      assert all[1..] == q;
    } else {
      SplitAtDot(p[1..], q);
      assert all[1..] == p[1..] + "." + q && all[0] == p[0];
      hide PutFirst;
      PutFirstAppend(p[0], Split(p[1..]), Split(q));
    }
  }

  lemma {:induction false} SplitJoin(segs: seq<string>)
    requires segs != [] && forall w :: w in segs ==> '.' !in w
    ensures Split(Join(segs)) == segs
  {
    SplitWord(segs[0]);
    if |segs| > 1 {
      SplitAtDot(segs[0], Join(segs[1..]));
      SplitJoin(segs[1..]);
    }
  }

  // ---------------------------------------------------------------- resolving a path

  /** Descends from `cur` along the given keys. */
  function Walk(cur: Value, keys: seq<string>): Option<Value> {
    if keys == [] then Some(cur)
    else if cur.Obj? && keys[0] in cur.fields then Walk(cur.fields[keys[0]], keys[1..])
    else None
  }

  /** The value a dotted path names in `m`; the empty path names nothing. */
  function Resolve(m: Object, path: string): Option<Value> {
    if path == "" then None else Walk(Obj(m), Split(path))
  }

  method ResolvePath(m: Object, path: string) returns (v: Value, ok: bool)
    ensures if ok then Resolve(m, path) == Some(v) else Resolve(m, path).None? && v == Null
  {
    if path == "" {
      return Null, false;
    }
    var parts := Split(path);
    var cur := Obj(m);
    for i := 0 to |parts|
      invariant Resolve(m, path) == Walk(cur, parts[i..])
    {
      if !cur.Obj? {
        return Null, false;
      }
      if parts[i] !in cur.fields {
        return Null, false;
      }
      cur := cur.fields[parts[i]];
    }
    return cur, true;
  }

  lemma {:induction false} WalkCompose(cur: Value, a: seq<string>, b: seq<string>)
    ensures Walk(cur, a + b) == match Walk(cur, a) case None => None case Some(v) => Walk(v, b)
  {
    if a == [] {
      assert a + b == b;
    } else if cur.Obj? && a[0] in cur.fields {
      WalkCompose(cur.fields[a[0]], a[1..], b);
      assert (a + b)[1..] == a[1..] + b;
    }
  }

  /** Resolving p.q is resolving p, then q inside the object found there. */
  lemma ResolveComposes(m: Object, p: string, q: string)
    requires p != "" && q != ""
    ensures Resolve(m, p + "." + q)
            == match Resolve(m, p) case Some(Obj(inner)) => Resolve(inner, q) case _ => None
  {
    SplitAtDot(p, q);
    WalkCompose(Obj(m), Split(p), Split(q));
  }

  /** A path of one segment names the value under that key, whatever its kind. */
  lemma ResolveKey(m: Object, k: string)
    requires k != "" && '.' !in k
    ensures Resolve(m, k) == if k in m then Some(m[k]) else None
  {
    SplitWord(k);
    if k in m { assert Walk(Obj(m), [k]) == Walk(m[k], [k][1..]) == Some(m[k]); }
  }

  /** Values met on the way from `start`: each but the last is an object that holds the next under its key. */
  ghost predicate Chain(start: Value, keys: seq<string>, met: seq<Value>) {
    && |met| == |keys| + 1 && met[0] == start
    && forall i :: 0 <= i < |keys| ==>
         met[i].Obj? && keys[i] in met[i].fields && met[i + 1] == met[i].fields[keys[i]]
  }

  lemma {:induction false} WalkIff(start: Value, keys: seq<string>, v: Value)
    ensures Walk(start, keys) == Some(v) <==> exists met :: Chain(start, keys, met) && met[|keys|] == v
  {
    if keys == [] {
      assert Chain(start, keys, [start]);
    } else {
      if start.Obj? && keys[0] in start.fields {
        var next := start.fields[keys[0]];
        WalkIff(next, keys[1..], v);
        if Walk(start, keys) == Some(v) {
          var met :| Chain(next, keys[1..], met) && met[|keys| - 1] == v;
          assert Chain(start, keys, [start] + met);
        }
      }
      forall met | Chain(start, keys, met) && met[|keys|] == v ensures Walk(start, keys) == Some(v) {
        assert Chain(met[1], keys[1..], met[1..]);
      }
    }
  }

  /** Any path, as a join of dot-free segments, resolves to v exactly when a chain of objects leads there. */
  lemma ResolveIff(m: Object, segs: seq<string>, v: Value)
    requires segs != [] && forall w :: w in segs ==> '.' !in w
    ensures Resolve(m, Join(segs)) == Some(v)
            <==> segs != [""] && exists met :: Chain(Obj(m), segs, met) && met[|segs|] == v
  {
    SplitJoin(segs);
    assert Join(segs) == "" <==> segs == [""] by { assert Split("") == [""]; }
    assert Resolve(m, Join(segs)) == if segs == [""] then None else Walk(Obj(m), segs);
    WalkIff(Obj(m), segs, v);
  }

  // ---------------------------------------------------------------- the shape of a claim path

  predicate IsLetter(c: char) {
    'A' <= c <= 'Z' || 'a' <= c <= 'z' || c == '_'
  }

  /** Matches [A-Za-z_][A-Za-z0-9_-]*. */
  predicate IsSegment(w: string) {
    w != "" && IsLetter(w[0])
    && forall i :: 0 <= i < |w| ==> IsLetter(w[i]) || '0' <= w[i] <= '9' || w[i] == '-'
  }

  /** Letters, digits, underscores and hyphens, the first neither a digit nor a hyphen. */
  lemma SegmentIff(w: string)
    ensures IsSegment(w) <==>
              && w != "" && !('0' <= w[0] <= '9') && w[0] != '-'
              && forall c :: c in w ==> 'A' <= c <= 'Z' || 'a' <= c <= 'z' || '0' <= c <= '9' || c in {'_', '-'}
  {
    if IsSegment(w) {
      forall c | c in w ensures 'A' <= c <= 'Z' || 'a' <= c <= 'z' || '0' <= c <= '9' || c in {'_', '-'} {
        var i :| 0 <= i < |w| && w[i] == c;
      }
    }
    assert forall i :: 0 <= i < |w| ==> w[i] in w;
  }

  datatype PathError = EmptyPath | EmptySegment | BadSegment(segment: string)

  /** The first thing wrong with a claim path, if any. */
  function ValidateClaimPath(path: string): Option<PathError> {
    if path == "" then Some(EmptyPath) else FirstBadSegment(Split(path))
  }

  function FirstBadSegment(segs: seq<string>): Option<PathError> {
    if segs == [] then None
    else if segs[0] == "" then Some(EmptySegment)
    else if !IsSegment(segs[0]) then Some(BadSegment(segs[0]))
    else FirstBadSegment(segs[1..])
  }

  ghost predicate AllSegments(segs: seq<string>) {
    segs != [] && forall w :: w in segs ==> IsSegment(w)
  }

  lemma {:induction false} NoBadSegment(segs: seq<string>)
    ensures FirstBadSegment(segs).None? <==> forall w :: w in segs ==> IsSegment(w)
  {
    if segs != [] {
      var w0, rest := segs[0], segs[1..];
      NoBadSegment(rest);
      assert segs == [w0] + rest;
      assert w0 in segs && forall w :: w in rest ==> w in segs;
    }
  }

  /** The error names the first segment that is empty or misshapen. */
  lemma {:induction false} FirstBadSegmentIs(segs: seq<string>)
    ensures match FirstBadSegment(segs)
            case None => true
            case Some(e) =>
              exists i :: 0 <= i < |segs| && !IsSegment(segs[i]) && (forall j :: 0 <= j < i ==> IsSegment(segs[j]))
                          && e == if segs[i] == "" then EmptySegment else BadSegment(segs[i])
  {
    hide IsSegment;
    if segs != [] && segs[0] != "" && IsSegment(segs[0]) && FirstBadSegment(segs).Some? {
      var rest := segs[1..];
      FirstBadSegmentIs(rest);
      var i :| 0 <= i < |rest| && !IsSegment(rest[i]) && (forall j :: 0 <= j < i ==> IsSegment(rest[j]))
               && FirstBadSegment(rest).value == if rest[i] == "" then EmptySegment else BadSegment(rest[i]);
      assert segs[i + 1] == rest[i] && forall j :: 0 < j < i + 1 ==> segs[j] == rest[j - 1];
    } else if segs != [] && FirstBadSegment(segs).Some? {
      assert !IsSegment(segs[0]) by { EmptyIsNoSegment(); }
    }
  }

  lemma EmptyIsNoSegment()
    ensures !IsSegment("")
  {
  }

  /** The accepted paths are exactly the dotted joins of identifier-shaped segments. */
  lemma AcceptedPaths(path: string)
    ensures ValidateClaimPath(path).None? <==> exists segs :: AllSegments(segs) && Join(segs) == path
  {
    if path != "" { NoBadSegment(Split(path)); }
    if ValidateClaimPath(path).None? {
      JoinSplit(path);
      assert AllSegments(Split(path));
    }
    forall segs | AllSegments(segs) && Join(segs) == path ensures ValidateClaimPath(path).None? {
      SegmentPath(map[], segs);
    }
  }

  /** Joining identifier-shaped segments is accepted, and resolves to the walk along them. */
  lemma SegmentPath(m: Object, segs: seq<string>)
    requires AllSegments(segs)
    ensures ValidateClaimPath(Join(segs)).None?
    ensures Resolve(m, Join(segs)) == Walk(Obj(m), segs)
  {
    SplitJoin(segs);
    NoBadSegment(segs);
    assert IsSegment(segs[0]);
  }
}
