/** Splitting a string at its underscores and joining it back. */
module Underscores {

  predicate Plain(s: string) {
    '_' !in s
  }

  predicate AllPlain(parts: seq<string>) {
    forall i :: 0 <= i < |parts| ==> Plain(parts[i])
  }

  /** `s.split("_")`. */
  function Split(s: string): (parts: seq<string>)
    ensures |parts| >= 1
  {
    if s == "" then [""]
    else
      var front := Split(s[..|s| - 1]);
      if s[|s| - 1] == '_' then front + [""]
      else front[..|front| - 1] + [front[|front| - 1] + [s[|s| - 1]]]
  }

  function Join(parts: seq<string>): string
    requires |parts| >= 1
  {
    if |parts| == 1 then parts[0] else Join(parts[..|parts| - 1]) + "_" + parts[|parts| - 1]
  }

  function Count(s: string): nat {
    if s == "" then 0 else Count(s[..|s| - 1]) + if s[|s| - 1] == '_' then 1 else 0
  }

  lemma SplitSnoc(s: string, c: char)
    ensures Split(s + [c]) ==
      if c == '_' then Split(s) + [""] else Split(s)[..|Split(s)| - 1] + [Split(s)[|Split(s)| - 1] + [c]]
  {
    assert (s + [c])[..|s|] == s;
  }

  lemma {:induction false} SplitLastPart(s: string, part: string)
    requires Plain(part)
    ensures Split(s + "_" + part) == Split(s) + [part]
  {
    if part == "" {
      assert s + "_" + part == s + ['_'];
      SplitSnoc(s, '_');
    } else {
      var n := |part| - 1;
      SplitLastPart(s, part[..n]);
      assert s + "_" + part == (s + "_" + part[..n]) + [part[n]];
      assert part[n] in part && part == part[..n] + [part[n]];
      SplitSnoc(s + "_" + part[..n], part[n]);
    }
  }

  lemma {:induction false} SplitPlain(part: string)
    requires Plain(part)
    ensures Split(part) == [part]
  {
    if part != "" {
      var n := |part| - 1;
      SplitPlain(part[..n]);
      assert part[n] in part && part == part[..n] + [part[n]];
    }
  }

  lemma {:induction false} SplitOfJoin(parts: seq<string>)
    requires |parts| >= 1 && AllPlain(parts)
    ensures Split(Join(parts)) == parts
  {
    var n := |parts| - 1;
    if n == 0 {
      SplitPlain(parts[0]);
    } else {
      SplitOfJoin(parts[..n]);
      SplitLastPart(Join(parts[..n]), parts[n]);
    }
  }

  lemma GrowLastPart(parts: seq<string>, c: char)
    requires |parts| >= 1 && AllPlain(parts) && c != '_'
    ensures var grown := parts[..|parts| - 1] + [parts[|parts| - 1] + [c]];
      AllPlain(grown) && Join(grown) == Join(parts) + [c]
  {
    var k := |parts| - 1;
    assert (parts[..k] + [parts[k] + [c]])[..k] == parts[..k];
  }

  lemma AddEmptyPart(parts: seq<string>)
    requires |parts| >= 1 && AllPlain(parts)
    ensures AllPlain(parts + [""]) && Join(parts + [""]) == Join(parts) + ['_']
  {
    assert (parts + [""])[..|parts|] == parts;
  }

  lemma {:induction false} JoinOfSplit(s: string)
    ensures Join(Split(s)) == s && AllPlain(Split(s)) && |Split(s)| == Count(s) + 1
  {
    if s != "" {
      var n := |s| - 1;
      JoinOfSplit(s[..n]);
      assert s == s[..n] + [s[n]];
      hide Join, AllPlain;
      if s[n] == '_' {
        AddEmptyPart(Split(s[..n]));
      } else {
        GrowLastPart(Split(s[..n]), s[n]);
      }
    } else {
      assert Plain("");
    }
  }

  lemma {:induction false} CountConcat(a: string, b: string)
    ensures Count(a + b) == Count(a) + Count(b)
  {
    if b == "" {
      assert a + b == a;
    } else {
      var n := |b| - 1;
      CountConcat(a, b[..n]);
      assert (a + b)[..|a + b| - 1] == a + b[..n];
    }
  }
}
