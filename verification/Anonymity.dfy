/** How FileDeal shortens a path before it is logged. */
module Anonymity {
  const ANONYMOUS := "***"
  const PATH_SIZE_MIX := 4

  predicate IsComponent(s: string) {
    s != [] && '/' !in s
  }

  /** The position of the first slash, or the length of the text. */
  function FirstSlash(s: string): (i: nat)
    ensures i <= |s| && '/' !in s[..i]
    ensures i < |s| ==> s[i] == '/'
  {
    if s == [] || s[0] == '/' then 0
    else
      var j := FirstSlash(s[1..]);
      assert s[..j + 1] == [s[0]] + s[1..][..j];
      j + 1
  }

  function Tail(s: string): string {
    var i := FirstSlash(s);
    if i < |s| then s[i + 1..] else []
  }

  /** The non-empty pieces between slashes. */
  function Components(s: string): (cs: seq<string>)
    ensures forall i :: 0 <= i < |cs| ==> IsComponent(cs[i])
    decreases |s|
  {
    if s == [] then []
    else
      var head := s[..FirstSlash(s)];
      (if head == [] then [] else [head]) + Components(Tail(s))
  }

  function Join(cs: seq<string>): string {
    if cs == [] then [] else if |cs| == 1 then cs[0] else cs[0] + "/" + Join(cs[1..])
  }

  /** The first two and the last two components of a long path. */
  function Kept(cs: seq<string>): seq<string>
    requires |cs| > PATH_SIZE_MIX
  {
    [cs[0], cs[1], ANONYMOUS, cs[|cs| - 2], cs[|cs| - 1]]
  }

  function Shortened(s: string): string {
    var cs := Components(s);
    if |cs| <= PATH_SIZE_MIX then ANONYMOUS else Join(Kept(cs))
  }

  lemma {:induction false} FirstSlashOf(c: string, rest: string)
    requires '/' !in c && (rest == [] || rest[0] == '/')
    ensures FirstSlash(c + rest) == |c|
  {
    if c != [] {
      assert (c + rest)[1..] == c[1..] + rest;
      FirstSlashOf(c[1..], rest);
    } else {
      assert c + rest == rest;
    }
  }

  /** Splitting undoes joining. */
  lemma {:induction false} SplitUndoesJoin(cs: seq<string>)
    requires forall i :: 0 <= i < |cs| ==> IsComponent(cs[i])
    ensures Components(Join(cs)) == cs
  {
    if |cs| == 1 {
      FirstSlashOf(cs[0], []);
      assert cs[0] + [] == cs[0];
      assert Join(cs) == cs[0] && cs[0][..|cs[0]|] == cs[0];
      assert Components(Tail(cs[0])) == [];
    } else if |cs| > 1 {
      var rest := "/" + Join(cs[1..]);
      FirstSlashOf(cs[0], rest);
      assert Join(cs) == cs[0] + rest;
      assert (cs[0] + rest)[..|cs[0]|] == cs[0];
      assert Tail(cs[0] + rest) == Join(cs[1..]);
      SplitUndoesJoin(cs[1..]);
    }
  }

  /** Every slash ends a component, and slashes in front or in a row add none. */
  lemma SlashesSeparate(c: string, s: string)
    ensures Components([]) == [] && Components("/" + s) == Components(s)
    ensures IsComponent(c) ==> Components(c) == [c] && Components(c + "/" + s) == [c] + Components(s)
  {
    FirstSlashOf([], "/" + s);
    assert [] + ("/" + s) == "/" + s && Tail("/" + s) == s;
    if IsComponent(c) {
      assert Join([c]) == c;
      SplitUndoesJoin([c]);
      var t := c + ("/" + s);
      FirstSlashOf(c, "/" + s);
      assert t == c + "/" + s && t[..|c|] == c && Tail(t) == s;
    }
  }

  lemma KeptParts(cs: seq<string>)
    requires |cs| > PATH_SIZE_MIX && forall i :: 0 <= i < |cs| ==> IsComponent(cs[i])
    ensures Components(Join(Kept(cs))) == Kept(cs)
  {
    SplitUndoesJoin(Kept(cs));
  }

  lemma AnonymousIsOne()
    ensures Components(ANONYMOUS) == [ANONYMOUS]
  {
    assert Join([ANONYMOUS]) == ANONYMOUS;
    SplitUndoesJoin([ANONYMOUS]);
  }

  lemma ShortenedParts(s: string)
    ensures Components(Shortened(s)) == if |Components(s)| <= PATH_SIZE_MIX then [ANONYMOUS] else Kept(Components(s))
  {
    AnonymousIsOne();
    if |Components(s)| > PATH_SIZE_MIX {
      KeptParts(Components(s));
    }
  }

  /** A path of up to four components is hidden altogether; of a longer one the first two and the last two stay.
      A slash in front makes no difference. */
  lemma ShortForm(cs: seq<string>)
    requires forall i :: 0 <= i < |cs| ==> IsComponent(cs[i])
    ensures Shortened("/" + Join(cs)) == Shortened(Join(cs))
    ensures |cs| <= 4 ==> Shortened(Join(cs)) == "***"
    ensures |cs| > 4 ==>
              Shortened(Join(cs)) == cs[0] + "/" + cs[1] + "/***/" + cs[|cs| - 2] + "/" + cs[|cs| - 1]
  {
    SplitUndoesJoin(cs);
    SlashesSeparate([], Join(cs));
    hide Components, Join;
    if |cs| > 4 {
      JoinKept(cs);
      StarsBetween(cs[0] + "/" + cs[1], cs[|cs| - 2]);
    }
  }

  lemma StarsBetween(c: string, d: string)
    ensures c + "/" + ANONYMOUS + "/" + d == c + "/***/" + d
  {
    assert c + "/" + ANONYMOUS + "/" == c + "/***/";
  }

  /** Shortening a shortened path changes nothing. */
  lemma ShorteningTwice(s: string)
    ensures Shortened(Shortened(s)) == Shortened(s)
  {
    ShortenedParts(s);
    var cs := Components(s);
    if |cs| > PATH_SIZE_MIX {
      assert Kept(Kept(cs)) == Kept(cs);
    }
  }

  /** What the result gives away: whether the path is long, and its first two and last two components. */
  lemma WhatIsRevealed(s: string, t: string)
    ensures var cs, ds := Components(s), Components(t);
            Shortened(s) == Shortened(t) <==>
              if |cs| <= PATH_SIZE_MIX || |ds| <= PATH_SIZE_MIX then |cs| <= PATH_SIZE_MIX && |ds| <= PATH_SIZE_MIX
              else cs[..2] == ds[..2] && cs[|cs| - 2..] == ds[|ds| - 2..]
  {
    hide Components;
    ShortenedParts(s);
    ShortenedParts(t);
    var cs, ds := Components(s), Components(t);
    if |cs| > PATH_SIZE_MIX && |ds| > PATH_SIZE_MIX {
      assert cs[..2] == [cs[0], cs[1]] && ds[..2] == [ds[0], ds[1]];
      assert cs[|cs| - 2..] == [cs[|cs| - 2], cs[|cs| - 1]] && ds[|ds| - 2..] == [ds[|ds| - 2], ds[|ds| - 1]];
      if Shortened(s) == Shortened(t) {
        assert Kept(cs) == Kept(ds);
        assert Kept(cs)[0] == Kept(ds)[0] && Kept(cs)[1] == Kept(ds)[1] && Kept(cs)[3] == Kept(ds)[3] &&
               Kept(cs)[4] == Kept(ds)[4];
      }
    } else if Shortened(s) == Shortened(t) {
      assert |Components(Shortened(s))| == |Components(Shortened(t))|;
    }
  }

  lemma NextComponent(before: seq<string>, rest: string)
    requires rest != []
    ensures var head := rest[..FirstSlash(rest)];
            before + Components(rest) == (if head == [] then before else before + [head]) + Components(Tail(rest))
  {
    var head := rest[..FirstSlash(rest)];
    var later := Components(Tail(rest));
    assert Components(rest) == (if head == [] then later else [head] + later);
    hide Components, FirstSlash;
    if head != [] {
      assert before + ([head] + later) == (before + [head]) + later;
    }
  }

  /** The getline loop. */
  method SplitPath(path: string) returns (pathVector: seq<string>)
    ensures pathVector == Components(path)
  {
    hide Components;
    pathVector := [];
    var rest := path;
    while rest != []
      invariant pathVector + Components(rest) == Components(path)
      decreases |rest|
    {
      NextComponent(pathVector, rest);
      var pathName := rest[..FirstSlash(rest)];
      if pathName != [] {
        pathVector := pathVector + [pathName];
      }
      rest := Tail(rest);
    }
    assert Components(rest) == [] by { NoComponents(); }
  }

  lemma NoComponents()
    ensures Components([]) == []
  {
  }

  method ToBeAnonymous(path: string) returns (result: string)
    ensures result == Shortened(path)
  {
    hide Join, Kept, Components;
    var pathVector := SplitPath(path);
    if |pathVector| <= PATH_SIZE_MIX {
      return ANONYMOUS;
    }
    JoinKept(pathVector);
    var n := |pathVector|;
    result := pathVector[0] + "/" + pathVector[1] + "/" + ANONYMOUS + "/" + pathVector[n - 2] + "/" + pathVector[n - 1];
  }

  lemma JoinKept(cs: seq<string>)
    requires |cs| > PATH_SIZE_MIX
    ensures Join(Kept(cs)) == cs[0] + "/" + cs[1] + "/" + ANONYMOUS + "/" + cs[|cs| - 2] + "/" + cs[|cs| - 1]
  {
    hide Join;
    JoinFive(cs[0], cs[1], ANONYMOUS, cs[|cs| - 2], cs[|cs| - 1]);
  }

  lemma JoinFive(a: string, b: string, c: string, d: string, e: string)
    ensures Join([a, b, c, d, e]) == a + "/" + b + "/" + c + "/" + d + "/" + e
  {
    assert [a, b, c, d, e][1..] == [b, c, d, e];
    assert [b, c, d, e][1..] == [c, d, e];
    assert [c, d, e][1..] == [d, e];
    assert [d, e][1..] == [e];
    assert Join([d, e]) == d + "/" + e;
    assert Join([c, d, e]) == c + "/" + d + "/" + e;
    assert Join([b, c, d, e]) == b + "/" + c + "/" + d + "/" + e;
  }
}
