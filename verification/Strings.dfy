/** Joining and splitting on a separator, as the Go and Dart libraries do it. */
module Strings {

  /** strings.Join. */
  function Join<T>(parts: seq<seq<T>>, sep: seq<T>): seq<T> {
    if parts == [] then []
    else if |parts| == 1 then parts[0]
    else Join(parts[..|parts| - 1], sep) + sep + parts[|parts| - 1]
  }

  /** strings.Split on a one-element separator: always at least one piece. */
  function Split<T(==)>(s: seq<T>, sep: T): (parts: seq<seq<T>>)
    ensures parts != []
  {
    if s == [] then [[]]
    else
      var n := |s| - 1;
      var before := Split(s[..n], sep);
      if s[n] == sep then before + [[]] else Front(before) + [Last(before) + [s[n]]]
  }

  function Last<T>(s: seq<T>): T
    requires s != []
  {
    s[|s| - 1]
  }

  function Front<T>(s: seq<T>): seq<T>
    requires s != []
  {
    s[..|s| - 1]
  }

  lemma SplitMore<T>(s: seq<T>, x: T, sep: T)
    ensures Split(s + [x], sep) ==
            if x == sep then Split(s, sep) + [[]] else Front(Split(s, sep)) + [Last(Split(s, sep)) + [x]]
  {
    assert (s + [x])[..|s|] == s;
  }

  /** Splitting resumes from the last, unfinished piece. */
  lemma {:induction false} SplitResumes<T>(a: seq<T>, b: seq<T>, sep: T)
    ensures Split(a + b, sep) == Front(Split(a, sep)) + Split(Last(Split(a, sep)) + b, sep)
    decreases |b|
  {
    hide Split;
    var done, rest := Front(Split(a, sep)), Last(Split(a, sep));
    if b == [] {
      assert a + b == a && rest + b == rest;
      PiecesAreClean(a, sep);
      NoSeparator(rest, sep);
    } else {
      var n := |b| - 1;
      assert a + b == a + b[..n] + [b[n]] && rest + b == rest + b[..n] + [b[n]];
      SplitResumes(a, b[..n], sep);
      SplitMore(a + b[..n], b[n], sep);
      SplitMore(rest + b[..n], b[n], sep);
    }
  }

  lemma {:induction false} NoSeparator<T>(s: seq<T>, sep: T)
    requires sep !in s
    ensures Split(s, sep) == [s]
  {
    if s != [] {
      NoSeparator(s[..|s| - 1], sep);
      assert s == s[..|s| - 1] + [s[|s| - 1]];
    }
  }

  lemma {:induction false} PiecesAreClean<T>(s: seq<T>, sep: T)
    ensures forall i :: 0 <= i < |Split(s, sep)| ==> sep !in Split(s, sep)[i]
  {
    if s != [] {
      PiecesAreClean(s[..|s| - 1], sep);
    }
  }

  lemma SplitAtSeparator<T>(a: seq<T>, sep: T, b: seq<T>)
    ensures Split(a + [sep] + b, sep) == Split(a, sep) + Split(b, sep)
  {
    SplitMore(a, sep, sep);
    SplitResumes(a + [sep], b, sep);
    assert [] + b == b;
  }

  /** Pieces without the separator survive joining and splitting. */
  lemma {:induction false} SplitInvertsJoin<T>(parts: seq<seq<T>>, sep: T)
    requires parts != [] && forall i :: 0 <= i < |parts| ==> sep !in parts[i]
    ensures Split(Join(parts, [sep]), sep) == parts
  {
    hide Split;
    var n := |parts| - 1;
    NoSeparator(parts[n], sep);
    if n > 0 {
      SplitInvertsJoin(parts[..n], sep);
      SplitAtSeparator(Join(parts[..n], [sep]), sep, parts[n]);
    }
  }

  lemma {:induction false} JoinSplits<T>(a: seq<seq<T>>, b: seq<seq<T>>, sep: seq<T>)
    requires a != [] && b != []
    ensures Join(a + b, sep) == Join(a, sep) + sep + Join(b, sep)
    decreases |b|
  {
    var n := |b| - 1;
    assert (a + b)[..|a| + n] == a + b[..n];
    if n == 0 {
      assert a + b[..n] == a;
    } else {
      JoinSplits(a, b[..n], sep);
      assert Join(a, sep) + sep + Join(b[..n], sep) + sep + b[n]
          == Join(a, sep) + sep + (Join(b[..n], sep) + sep + b[n]);
    }
  }
}
