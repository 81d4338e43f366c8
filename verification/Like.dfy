/** The LIKE matcher of the evaluator against the meaning of LIKE in section 8.5 of
    SQL-92, and exactly which patterns it gets right. */
module Like {
  import opened Options

  // ----- The reference meaning -----

  /** `%` stands for any run of characters, `_` for any one character. */
  predicate Sql(s: string, p: string)
    decreases |p|, |s|
  {
    if p == "" then s == ""
    else if p[0] == '%' then Sql(s, p[1..]) || (s != "" && Sql(s[1..], p))
    else s != "" && (p[0] == '_' || s[0] == p[0]) && Sql(s[1..], p[1..])
  }

  // ----- The matcher -----

  /** Every `%` becomes ".*", every `_` becomes "." */
  function Glob(p: string): string {
    if p == "" then "" else
      (if p[0] == '%' then ".*" else if p[0] == '_' then "." else [p[0]]) + Glob(p[1..])
  }

  predicate AtWildcard(g: string) {
    |g| >= 2 && g[0] == '.' && g[1] == '*'
  }

  predicate EndsWithWildcard(g: string) {
    |g| >= 2 && g[|g| - 2] == '.' && g[|g| - 1] == '*'
  }

  /** The pieces of a pattern, a wildcard between each and the next. */
  datatype Parts = Last(part: string) | More(part: string, rest: Parts) {

    function Prepend(c: char): Parts {
      this.(part := [c] + part)
    }

    function Length(): (n: nat)
      ensures n > 0
    {
      match this case Last(_) => 1 case More(_, rest) => 1 + rest.Length()
    }

    function Final(): string {
      match this case Last(p) => p case More(_, rest) => rest.Final()
    }

    function Flat(): string {
      match this case Last(p) => p case More(p, rest) => p + rest.Flat()
    }
  }

  /** Splitting at every ".*" */
  function Split(g: string): Parts
    decreases |g|
  {
    if g == "" then Last("")
    else if AtWildcard(g) then More("", Split(g[2..]))
    else Split(g[1..]).Prepend(g[0])
  }

  /** The leftmost place where `part` occurs in `s` */
  function Find(s: string, part: string): (r: Option<nat>)
    ensures r.Some? ==> r.value + |part| <= |s|
    decreases |s|
  {
    if part <= s then Some(0)
    else if s == "" then None
    else match Find(s[1..], part) case None => None case Some(n) => Some(n + 1)
  }

  /** What is left of `t` after the leftmost occurrence of `part` */
  function Skip(t: string, part: string): Option<string> {
    match Find(t, part) case None => None case Some(pos) => Some(t[pos + |part|..])
  }

  /** Greedy leftmost placement of the remaining pieces; at the end nothing may be left
      over unless a trailing wildcard takes it. */
  predicate Greedy(t: string, parts: Parts, open: bool) {
    match Skip(t, parts.part)
    case None => false
    case Some(u) => if parts.Last? then open || u == "" else Greedy(u, parts.rest, open)
  }

  predicate Accept(s: string, parts: Parts) {
    match parts
    case Last(p) => s == p
    case More(p, rest) => p <= s && Greedy(s[|p|..], rest, parts.Final() == "")
  }

  predicate Matches(s: string, p: string) {
    Accept(s, Split(Glob(p)))
  }

  lemma {:induction false} EndsInWildcard(g: string)
    ensures Split(g).More? ==> (EndsWithWildcard(g) <==> Split(g).Final() == "")
    ensures Split(g).Last? ==> Split(g) == Last(g) && !EndsWithWildcard(g)
    ensures AtWildcard(g) ==> Split(g).More? && Split(g).part == ""
    decreases |g|
  {
    if g != "" {
      if AtWildcard(g) {
        EndsInWildcard(g[2..]);
      } else {
        assert g == [g[0]] + g[1..];
        EndsInWildcard(g[1..]);
      }
    }
  }

  lemma SkipPrefix(t: string, part: string)
    ensures part <= t <==> Find(t, part) == Some(0)
    ensures part <= t ==> Skip(t, part) == Some(t[|part|..])
    ensures part == "" ==> Skip(t, part) == Some(t)
  {
    assert t[0..] == t;
  }

  /** Whether the loop still accepts with `todo` pieces to place in `remaining` */
  predicate Pending(remaining: string, todo: Option<Parts>, open: bool) {
    match todo case None => open || remaining == "" case Some(parts) => Greedy(remaining, parts, open)
  }

  function Next(parts: Parts): Option<Parts> {
    match parts case Last(_) => None case More(_, rest) => Some(rest)
  }

  lemma PendingStep(t: string, parts: Parts, open: bool)
    ensures match Skip(t, parts.part)
            case None => !Greedy(t, parts, open)
            case Some(u) => Greedy(t, parts, open) == Pending(u, Next(parts), open)
    ensures parts.part == "" ==> Greedy(t, parts, open) == Pending(t, Next(parts), open)
  {
    SkipPrefix(t, parts.part);
  }

  lemma FirstStep(s: string, parts: Parts)
    requires parts.More?
    ensures var open := parts.Final() == "";
            && (Find(s, parts.part) != Some(0) ==> !Accept(s, parts))
            && (Find(s, parts.part) == Some(0) ==>
                  Accept(s, parts) == Pending(s[|parts.part|..], Next(parts), open))
            && (parts.part == "" ==> Accept(s, parts) == Pending(s, Next(parts), open))
  {
    SkipPrefix(s, parts.part);
  }

  method SimpleLikeMatch(s: string, pattern: string) returns (m: bool)
    ensures m == Accept(s, Split(pattern))
  {
    var parts := Split(pattern);
    EndsInWildcard(pattern);
    if parts.Last? {       // the pattern does not contain ".*"
      return s == pattern;
    }
    ghost var open := parts.Final() == "";
    FirstStep(s, parts);
    var remaining, i, todo := s, 0, Some(parts);
    while todo.Some?
      invariant i == 0 ==> remaining == s && todo == Some(parts)
      invariant i > 0 ==> Accept(s, parts) == Pending(remaining, todo, open)
      decreases if todo.None? then 0 else todo.value.Length()
    {
      var part := todo.value.part;
      if i > 0 { PendingStep(remaining, todo.value, open); }
      if part != "" {
        match Find(remaining, part) {
          case None => return false;
          case Some(pos) =>
            if i == 0 && !AtWildcard(pattern) && pos != 0 { return false; }
            remaining := remaining[pos + |part|..];
        }
      }
      todo := Next(todo.value);
      i := i + 1;
    }
    if !EndsWithWildcard(pattern) && remaining != "" { return false; }
    return true;
  }

  // ----- The pieces taken from the pattern itself -----

  predicate AtStarPair(p: string) {
    |p| >= 2 && (p[0] == '.' || p[0] == '_') && p[1] == '*'
  }

  function Literal(c: char): char { if c == '_' then '.' else c }

  function Pieces(p: string): Parts
    decreases |p|
  {
    if p == "" then Last("")
    else if p[0] == '%' then More("", Pieces(p[1..]))
    else if AtStarPair(p) then More("", Pieces(p[2..]))
    else Pieces(p[1..]).Prepend(Literal(p[0]))
  }

  lemma {:induction false} SplitGlob(p: string)
    ensures Split(Glob(p)) == Pieces(p)
    decreases |p|
  {
    if p == "" {
    } else if p[0] == '%' {
      assert Glob(p) == ".*" + Glob(p[1..]);
      assert Glob(p)[2..] == Glob(p[1..]);
      SplitGlob(p[1..]);
    } else {
      var g, g' := Glob(p), Glob(p[1..]);
      assert g == [Literal(p[0])] + g' && g[1..] == g';
      if |p| > 1 { assert g' == (if p[1] == '%' then ".*" else [Literal(p[1])]) + Glob(p[1..][1..]); }
      if AtStarPair(p) {
        assert p[1..][1..] == p[2..];
        assert g' == "*" + Glob(p[2..]);
        assert g[2..] == Glob(p[2..]);
        SplitGlob(p[2..]);
      } else {
        assert !AtWildcard(g);
        SplitGlob(p[1..]);
      }
    }
  }

  // ----- What the pieces mean -----

  /** The pieces occur in order, the first at the front, the last at the end. */
  ghost predicate Meaning(s: string, parts: Parts)
    decreases parts, 0
  {
    match parts
    case Last(p) => s == p
    case More(p, rest) => p <= s && After(s[|p|..], rest)
  }

  ghost predicate After(t: string, parts: Parts)
    decreases parts, 2
  {
    exists n: nat :: At(t, n, parts)
  }

  ghost predicate At(t: string, n: nat, parts: Parts)
    decreases parts, 1
  {
    n <= |t| && Meaning(t[n..], parts)
  }

  lemma AfterAt(t: string, n: nat, parts: Parts)
    requires n <= |t| && Meaning(t[n..], parts)
    ensures After(t, parts)
  {
    assert At(t, n, parts);
  }

  lemma AfterLonger(t: string, m: nat, parts: Parts)
    requires m <= |t| && After(t[m..], parts)
    ensures After(t, parts)
  {
    var n: nat :| At(t[m..], n, parts);
    assert t[m..][n..] == t[m + n..];
    AfterAt(t, m + n, parts);
  }

  lemma {:induction false} FindIsThere(t: string, part: string)
    requires Find(t, part).Some?
    ensures part <= t[Find(t, part).value..]
    decreases |t|
  {
    assert t[0..] == t;
    if !(part <= t) {
      FindIsThere(t[1..], part);
      var n := Find(t[1..], part).value;
      assert t[1..][n..] == t[n + 1..];
    }
  }

  /** Greedy matching never accepts what the pieces do not mean. */
  lemma {:induction false} GreedySound(t: string, parts: Parts, open: bool)
    requires (open ==> parts.Final() == "") && Greedy(t, parts, open)
    ensures After(t, parts)
    decreases parts
  {
    var pos := Find(t, parts.part).value;
    FindIsThere(t, parts.part);
    var v := t[pos..];
    var u := v[|parts.part|..];
    assert t[pos + |parts.part|..] == u;
    if parts.More? {
      GreedySound(u, parts.rest, open);
      AfterAt(t, pos, parts);
    } else if open {
      assert t[|t|..] == "";
      AfterAt(t, |t|, parts);
    } else {
      assert v == parts.part + u;
      AfterAt(t, pos, parts);
    }
  }

  lemma {:induction false} FindLeftmost(t: string, part: string, n: nat)
    requires n <= |t| && part <= t[n..]
    ensures Find(t, part).Some? && Find(t, part).value <= n
    decreases |t|
  {
    assert t[0..] == t;
    if !(part <= t) {
      assert t[1..][n - 1..] == t[n..];
      FindLeftmost(t[1..], part, n - 1);
    }
  }

  lemma LaterSuffix(t: string, pos: nat, n: nat, k: nat)
    requires pos <= n && n + k <= |t|
    ensures t[n..][k..] == t[pos + k..][n - pos..]
  {
  }

  /** The exchange argument: if any placement works and a trailing wildcard absorbs the
      rest, the leftmost placement works. */
  lemma {:induction false} GreedyComplete(t: string, parts: Parts)
    requires parts.Final() == "" && After(t, parts)
    ensures Greedy(t, parts, true)
    decreases parts
  {
    var part := parts.part;
    var n: nat :| At(t, n, parts);
    assert Meaning(t[n..], parts);
    FindLeftmost(t, part, n);
    var pos := Find(t, part).value;
    var u := t[pos + |part|..];
    assert Skip(t, part) == Some(u);
    if parts.More? {
      LaterSuffix(t, pos, n, |part|);
      AfterLonger(u, n - pos, parts.rest);
      GreedyComplete(u, parts.rest);
    }
  }

  lemma AcceptSound(s: string, parts: Parts)
    requires Accept(s, parts)
    ensures Meaning(s, parts)
  {
    if parts.More? {
      GreedySound(s[|parts.part|..], parts.rest, parts.Final() == "");
    }
  }

  lemma AcceptComplete(s: string, parts: Parts)
    requires (parts.More? ==> parts.Final() == "") && Meaning(s, parts)
    ensures Accept(s, parts)
  {
    if parts.More? {
      GreedyComplete(s[|parts.part|..], parts.rest);
    }
  }

  // ----- Pieces and SQL agree on plain patterns -----

  predicate HasDotStar(p: string) {
    p != "" && (AtWildcard(p) || HasDotStar(p[1..]))
  }

  predicate HasStarPair(p: string) {
    p != "" && (AtStarPair(p) || HasStarPair(p[1..]))
  }

  lemma MeaningOfPercent(s: string, parts: Parts)
    ensures Meaning(s, More("", parts)) <==> Meaning(s, parts) || (s != "" && Meaning(s[1..], More("", parts)))
  {
    var all := More("", parts);
    assert s[0..] == s;
    assert Meaning(s, all) == After(s, parts);
    if s != "" { assert s[1..][0..] == s[1..]; }
    if After(s, parts) {
      var n: nat :| At(s, n, parts);
      if n > 0 {
        assert s[n..] == s[1..][n - 1..];
        AfterAt(s[1..], n - 1, parts);
      }
    }
    if Meaning(s, parts) { AfterAt(s, 0, parts); }
    if s != "" && Meaning(s[1..], all) { AfterLonger(s, 1, parts); }
  }

  lemma MeaningOfChar(s: string, c: char, parts: Parts)
    ensures Meaning(s, parts.Prepend(c)) <==> s != "" && s[0] == c && Meaning(s[1..], parts)
  {
    var all := parts.Prepend(c);
    if s != "" {
      assert s == [s[0]] + s[1..];
      assert all.part <= s <==> s[0] == c && parts.part <= s[1..];
      if parts.part <= s[1..] { assert s[|all.part|..] == s[1..][|parts.part|..]; }
    }
  }

  lemma {:induction false} PlainMeaning(s: string, p: string)
    requires '_' !in p && !HasDotStar(p)
    ensures Sql(s, p) <==> Meaning(s, Pieces(p))
    decreases |p|, |s|
  {
    if p == "" {
    } else if p[0] == '%' {
      MeaningOfPercent(s, Pieces(p[1..]));
      PlainMeaning(s, p[1..]);
      if s != "" { PlainMeaning(s[1..], p); }
    } else {
      MeaningOfChar(s, p[0], Pieces(p[1..]));
      if s != "" { PlainMeaning(s[1..], p[1..]); }
    }
  }

  lemma {:induction false} PiecesShape(p: string)
    requires !HasStarPair(p)
    ensures Pieces(p).Last? <==> '%' !in p
    ensures '%' !in p ==> |Pieces(p).part| == |p|
    ensures '%' in p ==> (Pieces(p).Final() == "" <==> p[|p| - 1] == '%')
    decreases |p|
  {
    if p != "" {
      assert p == [p[0]] + p[1..];
      PiecesShape(p[1..]);
    }
  }

  lemma {:induction false} NoUnderscoreNoPair(p: string)
    requires '_' !in p
    ensures HasStarPair(p) <==> HasDotStar(p)
  {
    if p != "" { NoUnderscoreNoPair(p[1..]); }
  }

  // ----- Where the matcher errs -----

  function Count(s: string, c: char): nat {
    if s == "" then 0 else (if s[0] == c then 1 else 0) + Count(s[1..], c)
  }

  lemma {:induction false} CountConcat(a: string, b: string, c: char)
    ensures Count(a + b, c) == Count(a, c) + Count(b, c)
  {
    if a == "" {
      assert a + b == b;
    } else {
      assert (a + b)[1..] == a[1..] + b;
      CountConcat(a[1..], b, c);
    }
  }

  lemma {:induction false} SqlNeedsChars(s: string, p: string, c: char)
    requires Sql(s, p) && c != '%' && c != '_'
    ensures Count(s, c) >= Count(p, c)
    decreases |p|, |s|
  {
    if p != "" {
      if p[0] == '%' && Sql(s, p[1..]) {
        SqlNeedsChars(s, p[1..], c);
      } else if p[0] == '%' {
        SqlNeedsChars(s[1..], p, c);
      } else {
        SqlNeedsChars(s[1..], p[1..], c);
      }
    }
  }

  lemma {:induction false} MeaningNeedsChars(s: string, parts: Parts, c: char)
    requires Meaning(s, parts)
    ensures Count(s, c) >= Count(parts.Flat(), c)
    decreases parts
  {
    if parts.More? {
      CountConcat(parts.part, parts.rest.Flat(), c);
      var t := s[|parts.part|..];
      assert s == parts.part + t;
      CountConcat(parts.part, t, c);
      assert After(t, parts.rest);
      var n: nat :| At(t, n, parts.rest);
      assert t == t[..n] + t[n..];
      CountConcat(t[..n], t[n..], c);
      MeaningNeedsChars(t[n..], parts.rest, c);
    }
  }

  lemma FlatPrepend(c: char, parts: Parts)
    ensures parts.Prepend(c).Flat() == [c] + parts.Flat()
  {
    if parts.More? {
      assert ([c] + parts.part) + parts.rest.Flat() == [c] + (parts.part + parts.rest.Flat());
    }
  }

  lemma {:induction false} FlatPieces(p: string)
    ensures Count(Pieces(p).Flat(), '*') <= Count(p, '*')
    ensures HasStarPair(p) ==> Count(Pieces(p).Flat(), '*') < Count(p, '*')
    ensures !HasStarPair(p) ==> Count(Pieces(p).Flat(), '.') == Count(p, '.') + Count(p, '_')
    decreases |p|
  {
    if p == "" {
    } else if p[0] == '%' {
      FlatPieces(p[1..]);
      assert "" + Pieces(p[1..]).Flat() == Pieces(p[1..]).Flat();
    } else if AtStarPair(p) {
      FlatPieces(p[2..]);
      assert "" + Pieces(p[2..]).Flat() == Pieces(p[2..]).Flat();
      assert p[1..][1..] == p[2..];
    } else {
      FlatPieces(p[1..]);
      var flat := Pieces(p[1..]).Flat();
      FlatPrepend(Literal(p[0]), Pieces(p[1..]));
      assert ([Literal(p[0])] + flat)[1..] == flat;
    }
  }

  /** On the bare concatenation of its pieces the matcher finds each piece where it was
      put, and then asks whether the tail may stay. */
  lemma {:induction false} GreedyOnFlat(parts: Parts, tail: string, open: bool)
    ensures Greedy(parts.Flat() + tail, parts, open) <==> open || tail == ""
    decreases parts
  {
    var t := parts.Flat() + tail;
    var u := if parts.Last? then tail else parts.rest.Flat() + tail;
    assert t == parts.part + u;
    assert t[|parts.part|..] == u;
    SkipPrefix(t, parts.part);
    if parts.More? { GreedyOnFlat(parts.rest, tail, open); }
  }

  lemma AcceptOnFlat(parts: Parts, tail: string)
    ensures Accept(parts.Flat() + tail, parts) <==> tail == "" || (parts.More? && parts.Final() == "")
  {
    var s := parts.Flat() + tail;
    if parts.More? {
      assert s == parts.part + (parts.rest.Flat() + tail);
      assert s[|parts.part|..] == parts.rest.Flat() + tail;
      GreedyOnFlat(parts.rest, tail, parts.Final() == "");
    }
  }

  ghost predicate Errs(p: string) {
    exists s :: Matches(s, p) != Sql(s, p)
  }

  lemma StarPairErrs(p: string)
    requires HasStarPair(p)
    ensures Errs(p)
  {
    var parts := Pieces(p);
    var s := parts.Flat();
    SplitGlob(p);
    AcceptOnFlat(parts, "");
    assert s + "" == s;
    FlatPieces(p);
    if Sql(s, p) { SqlNeedsChars(s, p, '*'); }
    assert Matches(s, p) != Sql(s, p);
  }

  function Sample(p: string): string {
    if p == "" then ""
    else if p[0] == '%' then Sample(p[1..])
    else [if p[0] == '_' then 'z' else p[0]] + Sample(p[1..])
  }

  lemma {:induction false} SampleMatches(p: string)
    ensures Sql(Sample(p), p) && Count(Sample(p), '.') == Count(p, '.')
  {
    if p != "" {
      SampleMatches(p[1..]);
      if p[0] != '%' { assert Sample(p)[1..] == Sample(p[1..]); }
    }
  }

  lemma {:induction false} CountPositive(p: string, c: char)
    requires c in p
    ensures Count(p, c) > 0
  {
    if p[0] != c {
      assert p == [p[0]] + p[1..];
      CountPositive(p[1..], c);
    }
  }

  lemma UnderscoreErrs(p: string)
    requires '_' in p && !HasStarPair(p)
    ensures Errs(p)
  {
    var s := Sample(p);
    SampleMatches(p);
    SplitGlob(p);
    FlatPieces(p);
    CountPositive(p, '_');
    if Matches(s, p) {
      AcceptSound(s, Pieces(p));
      MeaningNeedsChars(s, Pieces(p), '.');
    }
    assert Matches(s, p) != Sql(s, p);
  }

  lemma {:induction false} AfterOnFlat(parts: Parts)
    ensures After(parts.Flat() + parts.Final(), parts)
    decreases parts
  {
    var t := parts.Flat() + parts.Final();
    match parts
    case Last(p) =>
      assert t[|p|..] == p;
      AfterAt(t, |p|, parts);
    case More(p, rest) =>
      assert t == p + (rest.Flat() + rest.Final());
      assert t[0..] == t && t[|p|..] == rest.Flat() + rest.Final();
      AfterOnFlat(rest);
      AfterAt(t, 0, parts);
  }

  lemma MeaningOnFlat(parts: Parts)
    requires parts.More?
    ensures Meaning(parts.Flat() + parts.Final(), parts)
  {
    var s, t := parts.Flat() + parts.Final(), parts.rest.Flat() + parts.rest.Final();
    assert s == parts.part + t;
    assert s[|parts.part|..] == t;
    AfterOnFlat(parts.rest);
  }

  lemma ClosedEndErrs(p: string)
    requires '_' !in p && !HasDotStar(p) && '%' in p && p[|p| - 1] != '%'
    ensures Errs(p)
  {
    var parts := Pieces(p);
    NoUnderscoreNoPair(p);
    PiecesShape(p);
    var s := parts.Flat() + parts.Final();
    SplitGlob(p);
    MeaningOnFlat(parts);
    PlainMeaning(s, p);
    AcceptOnFlat(parts, parts.Final());
    assert Matches(s, p) != Sql(s, p);
  }

  /** The patterns the matcher reads as SQL does: no `_`, no literal ".*", and either no
      `%` at all or a `%` at the end. */
  predicate Faithful(p: string) {
    '_' !in p && !HasDotStar(p) && ('%' in p ==> p[|p| - 1] == '%')
  }

  /** On a pattern without `_` and ".*" an accepted string always matches. */
  lemma PlainSound(s: string, p: string)
    requires '_' !in p && !HasDotStar(p) && Matches(s, p)
    ensures Sql(s, p)
  {
    SplitGlob(p);
    AcceptSound(s, Pieces(p));
    PlainMeaning(s, p);
  }

  lemma FaithfulComplete(s: string, p: string)
    requires Faithful(p) && Sql(s, p)
    ensures Matches(s, p)
  {
    SplitGlob(p);
    NoUnderscoreNoPair(p);
    PiecesShape(p);
    PlainMeaning(s, p);
    AcceptComplete(s, Pieces(p));
  }

  /** The matcher agrees with SQL on every string if and only if the pattern is faithful. */
  lemma LikeIsSqlExactlyWhenFaithful(p: string)
    ensures (forall s :: Matches(s, p) == Sql(s, p)) <==> Faithful(p)
  {
    if Faithful(p) {
      forall s ensures Matches(s, p) == Sql(s, p) {
        if Matches(s, p) { PlainSound(s, p); }
        if Sql(s, p) { FaithfulComplete(s, p); }
      }
    } else if HasStarPair(p) {
      StarPairErrs(p);
    } else if '_' in p {
      UnderscoreErrs(p);
    } else {
      NoUnderscoreNoPair(p);
      ClosedEndErrs(p);
    }
  }
}
