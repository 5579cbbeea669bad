/** Splitting a text at a separator, and joining it again. */
module Splitting {

  function Join<T>(parts: seq<seq<T>>, separator: T): seq<T> {
    if parts == [] then []
    else if |parts| == 1 then parts[0]
    else parts[0] + [separator] + Join(parts[1..], separator)
  }

  function Split<T(==)>(s: seq<T>, separator: T): (r: seq<seq<T>>)
    ensures r != []
    ensures forall i :: 0 <= i < |r| ==> separator !in r[i]
  {
    if s == [] then [[]]
    else
      var rest := Split(s[1..], separator);
      if s[0] == separator then [[]] + rest else [[s[0]] + rest[0]] + rest[1..]
  }

  lemma JoinHead<T>(x: T, parts: seq<seq<T>>, separator: T)
    requires parts != []
    ensures Join([[x] + parts[0]] + parts[1..], separator) == [x] + Join(parts, separator)
  {
    if |parts| > 1 {
      assert ([[x] + parts[0]] + parts[1..])[1..] == parts[1..];
    }
  }

  /** Splitting loses nothing. */
  lemma {:induction false} JoinUndoesSplit<T>(s: seq<T>, separator: T)
    ensures Join(Split(s, separator), separator) == s
  {
    if s != [] {
      JoinUndoesSplit(s[1..], separator);
      var rest := Split(s[1..], separator);
      assert s == [s[0]] + s[1..];
      if s[0] == separator {
        assert ([[]] + rest)[1..] == rest;
      } else {
        JoinHead(s[0], rest, separator);
      }
    }
  }

  lemma {:induction false} SplitPlain<T>(part: seq<T>, separator: T)
    requires separator !in part
    ensures Split(part, separator) == [part]
  {
    if part != [] {
      assert part[0] in part && part == [part[0]] + part[1..];
      SplitPlain(part[1..], separator);
    }
  }

  lemma {:induction false} SplitAfter<T>(part: seq<T>, rest: seq<T>, separator: T)
    requires separator !in part
    ensures Split(part + [separator] + rest, separator) == [part] + Split(rest, separator)
  {
    var s := part + [separator] + rest;
    if part == [] {
      assert s[1..] == rest;
    } else {
      assert part[0] in part && part == [part[0]] + part[1..];
      SplitAfter(part[1..], rest, separator);
      assert s[1..] == part[1..] + [separator] + rest;
      var after := [part[1..]] + Split(rest, separator);
      assert after[1..] == Split(rest, separator);
    }
  }

  predicate Separable<T(==)>(parts: seq<seq<T>>, separator: T) {
    parts != [] && forall i :: 0 <= i < |parts| ==> separator !in parts[i]
  }

  lemma {:induction false} SplitJoined<T>(parts: seq<seq<T>>, separator: T)
    requires Separable(parts, separator)
    ensures Split(Join(parts, separator), separator) == parts
  {
    if |parts| == 1 {
      SplitPlain(parts[0], separator);
    } else {
      SplitJoined(parts[1..], separator);
      SplitAfter(parts[0], Join(parts[1..], separator), separator);
    }
  }

  /** Splitting what was joined gives the parts back exactly when there is one and none holds the separator. */
  lemma SplitUndoesJoin<T>(parts: seq<seq<T>>, separator: T)
    ensures Split(Join(parts, separator), separator) == parts <==> Separable(parts, separator)
  {
    if Separable(parts, separator) {
      SplitJoined(parts, separator);
    }
  }
}
