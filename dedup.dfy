/** The deduplication step of `BatchQuery`: every address kept once, in
    the order of its first occurrence. */
module Deduplication {
  import opened Records

  ghost predicate Distinct<T>(s: seq<T>)
  {
    forall i, j :: 0 <= i < j < |s| ==> s[i] != s[j]
  }

  /** What the loop has produced after reading `s` from left to right:
      the last address is appended unless it was seen before. */
  function Dedup(s: seq<string>): (r: seq<string>)
    ensures forall x :: x in r <==> x in s
    ensures Distinct(r)
    decreases |s|
  {
    if s == [] then []
    else
      var d := Dedup(s[..|s| - 1]);
      if s[|s| - 1] in d then d else d + [s[|s| - 1]]
  }

  /** The index at which `x` first occurs in `s`. */
  function FirstIndex(s: seq<string>, x: string): (i: nat)
    requires x in s
    ensures i < |s| && s[i] == x
    ensures forall k :: 0 <= k < i ==> s[k] != x
  {
    if s[0] == x then 0 else 1 + FirstIndex(s[1..], x)
  }

  /** `t` lists its elements in the order in which they first occur in `s`. */
  ghost predicate InFirstOccurrenceOrder(t: seq<string>, s: seq<string>)
  {
    && (forall x :: x in t ==> x in s)
    && forall i, j :: 0 <= i < j < |t| ==>
         t[i] in s && t[j] in s && FirstIndex(s, t[i]) < FirstIndex(s, t[j])
  }

  lemma FirstIndexUnique(s: seq<string>, x: string, i: nat)
    requires i < |s| && s[i] == x
    requires forall k :: 0 <= k < i ==> s[k] != x
    ensures FirstIndex(s, x) == i
  {
  }

  /** A first occurrence inside a prefix is the first occurrence in the whole. */
  lemma FirstIndexOfPrefix(s: seq<string>, m: nat, x: string)
    requires m <= |s| && x in s[..m]
    ensures FirstIndex(s, x) == FirstIndex(s[..m], x)
  {
    var f := FirstIndex(s[..m], x);
    assert s[f] == x;
    FirstIndexUnique(s, x, f);
  }

  /** Addresses come out in the order of their first occurrence. */
  lemma {:induction false} DedupFirstOccurrenceOrder(s: seq<string>)
    ensures InFirstOccurrenceOrder(Dedup(s), s)
    decreases |s|
  {
    if s != [] {
      var p := s[..|s| - 1];
      var last := s[|s| - 1];
      var d := Dedup(p);
      DedupFirstOccurrenceOrder(p);
      assert s[..|s| - 1] == p;
      forall y | y in d
        ensures FirstIndex(s, y) == FirstIndex(p, y)
      {
        FirstIndexOfPrefix(s, |s| - 1, y);
      }
      if last !in d {
        FirstIndexUnique(s, last, |s| - 1);
        var r := d + [last];
        forall i, j | 0 <= i < j < |r|
          ensures r[i] in s && r[j] in s && FirstIndex(s, r[i]) < FirstIndex(s, r[j])
        {
          assert r[i] in d;
          if j < |d| {
            assert r[j] in d;
          }
        }
      }
    }
  }

  /** An input that already has no repeats is returned unchanged. */
  lemma {:induction false} DedupOfDistinct(s: seq<string>)
    requires Distinct(s)
    ensures Dedup(s) == s
    decreases |s|
  {
    if s != [] {
      var p := s[..|s| - 1];
      assert Distinct(p);
      DedupOfDistinct(p);
      forall k | 0 <= k < |p|
        ensures p[k] != s[|s| - 1]
      {
        assert p[k] == s[k];
      }
      assert p + [s[|s| - 1]] == s;
    }
  }

  /** Dropping the head keeps a sequence repeat-free and in first-occurrence order. */
  lemma TailInFirstOccurrenceOrder(t: seq<string>, s: seq<string>)
    requires t != [] && Distinct(t) && InFirstOccurrenceOrder(t, s)
    ensures Distinct(t[1..]) && InFirstOccurrenceOrder(t[1..], s)
  {
    var t' := t[1..];
    forall i, j | 0 <= i < j < |t'|
      ensures t'[i] in s && t'[j] in s && FirstIndex(s, t'[i]) < FirstIndex(s, t'[j])
    {
      assert t'[i] == t[i + 1] && t'[j] == t[j + 1];
    }
  }

  /** Kept as a lemma: the same fact as an `assert` inside the empty case of
      `FirstOccurrenceOrderUnique` is an index check under assumptions
      that already rule `u != []` out. */
  lemma HeadIsElement(u: seq<string>)
    ensures u != [] ==> u[0] in u
  {
  }

  /** The head of a sequence in first-occurrence order is the element that
      occurs first in `s`. */
  lemma MinimalFirstIndex(s: seq<string>, t: seq<string>)
    requires t != [] && InFirstOccurrenceOrder(t, s)
    ensures t[0] in s
    ensures forall x :: x in t ==> x in s && FirstIndex(s, t[0]) <= FirstIndex(s, x)
  {
    forall x | x in t
      ensures x in s && FirstIndex(s, t[0]) <= FirstIndex(s, x)
    {
      var i :| 0 <= i < |t| && t[i] == x;
      if i > 0 {
        assert FirstIndex(s, t[0]) < FirstIndex(s, t[i]);
      }
    }
  }

  /** Such sequences with the same elements start with the same address:
      the one whose first occurrence in `s` comes first. */
  lemma HeadsAgree(s: seq<string>, t: seq<string>, u: seq<string>)
    requires t != [] && Distinct(t) && Distinct(u)
    requires forall x :: x in t <==> x in u
    requires InFirstOccurrenceOrder(t, s) && InFirstOccurrenceOrder(u, s)
    ensures u != [] && t[0] == u[0]
  {
    assert t[0] in u;
    assert u[0] in t;
    MinimalFirstIndex(s, t);
    MinimalFirstIndex(s, u);
    var a, b := FirstIndex(s, t[0]), FirstIndex(s, u[0]);
    assert a <= b && b <= a;
  }

  /** Removing the common head of two repeat-free sequences with the same
      elements leaves tails with the same elements. */
  lemma TailsSameElements(t: seq<string>, u: seq<string>)
    requires t != [] && u != [] && t[0] == u[0] && Distinct(t) && Distinct(u)
    requires forall x :: x in t <==> x in u
    ensures forall x :: x in t[1..] <==> x in u[1..]
  {
    forall x
      ensures x in t[1..] ==> x in u[1..]
      ensures x in u[1..] ==> x in t[1..]
    {
      if x in t[1..] {
        var i :| 0 <= i < |t[1..]| && t[1..][i] == x;
        assert t[i + 1] == x && x != t[0];
        assert x in t;
        var j :| 0 <= j < |u| && u[j] == x;
        assert u[1..][j - 1] == x;
      }
      if x in u[1..] {
        var i :| 0 <= i < |u[1..]| && u[1..][i] == x;
        assert u[i + 1] == x && x != u[0];
        assert x in u;
        var j :| 0 <= j < |t| && t[j] == x;
        assert t[1..][j - 1] == x;
      }
    }
  }

  /** Two repeat-free sequences with the same elements, both in
      first-occurrence order of `s`, are equal. */
  lemma {:induction false} FirstOccurrenceOrderUnique(s: seq<string>, t: seq<string>, u: seq<string>)
    requires Distinct(t) && Distinct(u)
    requires forall x :: x in t <==> x in u
    requires InFirstOccurrenceOrder(t, s) && InFirstOccurrenceOrder(u, s)
    ensures t == u
    decreases |t|
  {
    if t == [] {
      HeadIsElement(u);
    } else {
      HeadsAgree(s, t, u);
      TailInFirstOccurrenceOrder(t, s);
      TailInFirstOccurrenceOrder(u, s);
      TailsSameElements(t, u);
      FirstOccurrenceOrderUnique(s, t[1..], u[1..]);
      assert t == [t[0]] + t[1..] && u == [u[0]] + u[1..];
    }
  }

  /** `Dedup(s)` is the only repeat-free sequence holding exactly the
      elements of `s` in first-occurrence order. */
  lemma DedupCharacterized(s: seq<string>, t: seq<string>)
    ensures t == Dedup(s) <==>
      Distinct(t) && (forall x :: x in t <==> x in s) && InFirstOccurrenceOrder(t, s)
  {
    DedupFirstOccurrenceOrder(s);
    if Distinct(t) && (forall x :: x in t <==> x in s) && InFirstOccurrenceOrder(t, s) {
      FirstOccurrenceOrderUnique(s, t, Dedup(s));
    }
  }

  /** The loop of `BatchQuery` that fills `batchedIPQueryItems`, with
      `mapIps` recording the addresses already seen. */
  method Deduplicate(ips: seq<string>) returns (items: seq<QueryItem>)
    ensures items == ItemsOf(Dedup(ips))
  {
    items := [];
    var mapIps: map<string, bool> := map[];
    for i := 0 to |ips|
      invariant items == ItemsOf(Dedup(ips[..i]))
      invariant forall x :: x in mapIps <==> x in Dedup(ips[..i])
    {
      var ip := ips[i];
      assert ips[..i + 1][..i] == ips[..i];
      if ip !in mapIps {
        items := items + [QueryItem(ip)];
        mapIps := mapIps[ip := true];
      }
    }
    assert ips[..|ips|] == ips;
  }
}
