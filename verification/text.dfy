/** String assembly as the library does it: `String.replace(char, char)` and
    `java.util.StringJoiner` with an empty prefix and suffix, together with
    `Split`, the inverse view used to state what shape a joined path has. */
module Text {

  /** `s.replace(from, to)`: every occurrence of `from` becomes `to`, every
      other character stays where it is. */
  function Replace(s: string, from: char, to: char): (r: string)
    ensures |r| == |s|
    ensures forall i {:trigger r[i]} :: 0 <= i < |s| ==> r[i] == (if s[i] == from then to else s[i])
    ensures from != to ==> from !in r
  {
    seq(|s|, i requires 0 <= i < |s| => if s[i] == from then to else s[i])
  }

  /** A `StringJoiner(sep)` after `add(parts[0]) ... add(parts[n-1])`. With no
      part added it renders as the empty string (its default empty value). */
  function Join(parts: seq<string>, sep: char): (s: string)
    decreases |parts|
  {
    if |parts| == 0 then ""
    else if |parts| == 1 then parts[0]
    else parts[0] + [sep] + Join(parts[1..], sep)
  }

  /** The segments of `s` between occurrences of `sep`, empty ones included;
      there is always at least one. */
  function Split(s: string, sep: char): (parts: seq<string>)
    ensures |parts| >= 1
    decreases |s|
  {
    if |s| == 0 then [""]
    else if s[0] == sep then [""] + Split(s[1..], sep)
    else
      var rest := Split(s[1..], sep);
      [[s[0]] + rest[0]] + rest[1..]
  }

  /** The segments of every part, in order. */
  function SplitAll(parts: seq<string>, sep: char): (segments: seq<string>)
    decreases |parts|
  {
    if |parts| == 0 then [] else Split(parts[0], sep) + SplitAll(parts[1..], sep)
  }

  /** Adding one more part to a joiner appends the separator and the part. */
  lemma {:induction false} JoinSnoc(parts: seq<string>, p: string, sep: char)
    ensures Join(parts + [p], sep) == if |parts| == 0 then p else Join(parts, sep) + [sep] + p
    decreases |parts|
  {
    if |parts| >= 2 {
      assert (parts + [p])[1..] == parts[1..] + [p];
      JoinSnoc(parts[1..], p, sep);
    }
  }

  /** Splitting distributes over a separator: the separator ends one segment. */
  lemma {:induction false} SplitAppend(a: string, b: string, sep: char)
    ensures Split(a + [sep] + b, sep) == Split(a, sep) + Split(b, sep)
    decreases |a|
  {
    if |a| == 0 {
      assert a + [sep] + b == [sep] + b;
      assert ([sep] + b)[1..] == b;
    } else {
      assert (a + [sep] + b)[0] == a[0];
      assert (a + [sep] + b)[1..] == a[1..] + [sep] + b;
      SplitAppend(a[1..], b, sep);
    }
  }

  /** A string without the separator is a single segment. */
  lemma {:induction false} SplitFree(s: string, sep: char)
    requires sep !in s
    ensures Split(s, sep) == [s]
    decreases |s|
  {
    if |s| > 0 {
      assert s[0] in s;
      assert forall c :: c in s[1..] ==> c in s;
      SplitFree(s[1..], sep);
      assert [s[0]] + s[1..] == s;
    }
  }

  /** Two separator-free strings around one separator split back into the two. */
  lemma SplitPair(a: string, b: string, sep: char)
    requires sep !in a && sep !in b
    ensures Split(a + [sep] + b, sep) == [a, b]
  {
    SplitAppend(a, b, sep);
    SplitFree(a, sep);
    SplitFree(b, sep);
  }

  /** Four parts of which only the third may hold the separator. */
  lemma SplitJoinFour(w: string, x: string, y: string, z: string, sep: char)
    requires sep !in w && sep !in x && sep !in z
    ensures Split(Join([w, x, y, z], sep), sep) == [w, x] + Split(y, sep) + [z]
  {
    var parts := [w, x, y, z];
    SplitJoin(parts, sep);
    assert parts[1..] == [x, y, z] && parts[1..][1..] == [y, z] && parts[1..][1..][1..] == [z];
    SplitFree(w, sep);
    SplitFree(x, sep);
    SplitFree(z, sep);
    assert SplitAll([z], sep) == [z] + SplitAll([], sep) == [z];
    assert SplitAll([y, z], sep) == Split(y, sep) + [z];
    assert SplitAll([x, y, z], sep) == [x] + (Split(y, sep) + [z]);
    assert SplitAll(parts, sep) == [w] + ([x] + (Split(y, sep) + [z]));
  }

  /** Five parts: the segments of each, in order. */
  lemma SplitJoinFive(a: string, b: string, c: string, d: string, e: string, sep: char)
    ensures Split(Join([a, b, c, d, e], sep), sep)
         == Split(a, sep) + Split(b, sep) + Split(c, sep) + Split(d, sep) + Split(e, sep)
  {
    assert Join([d, e], sep) == d + [sep] + e;
    assert [c, d, e][1..] == [d, e];
    assert Join([c, d, e], sep) == c + [sep] + Join([d, e], sep);
    assert [b, c, d, e][1..] == [c, d, e];
    assert Join([b, c, d, e], sep) == b + [sep] + Join([c, d, e], sep);
    assert [a, b, c, d, e][1..] == [b, c, d, e];
    assert Join([a, b, c, d, e], sep) == a + [sep] + Join([b, c, d, e], sep);
    SplitAppend(d, e, sep);
    SplitAppend(c, Join([d, e], sep), sep);
    SplitAppend(b, Join([c, d, e], sep), sep);
    SplitAppend(a, Join([b, c, d, e], sep), sep);
  }

  /** Seven parts without the separator split back into themselves. */
  lemma SplitJoinSeven(parts: seq<string>, sep: char)
    requires |parts| == 7
    requires sep !in parts[0] && sep !in parts[1] && sep !in parts[2] && sep !in parts[3]
    requires sep !in parts[4] && sep !in parts[5] && sep !in parts[6]
    ensures Split(Join(parts, sep), sep) == parts
  {
    SplitJoinFree(parts, sep);
  }

  /** Splitting a joined string yields the segments of each part, in order. */
  lemma {:induction false} SplitJoin(parts: seq<string>, sep: char)
    requires |parts| >= 1
    ensures Split(Join(parts, sep), sep) == SplitAll(parts, sep)
    decreases |parts|
  {
    if |parts| == 1 {
      assert SplitAll(parts[1..], sep) == [];
    } else {
      SplitAppend(parts[0], Join(parts[1..], sep), sep);
      SplitJoin(parts[1..], sep);
    }
  }

  /** When no part contains the separator, `Split` recovers the parts exactly. */
  lemma {:induction false} SplitJoinFree(parts: seq<string>, sep: char)
    requires |parts| >= 1
    requires forall i :: 0 <= i < |parts| ==> sep !in parts[i]
    ensures Split(Join(parts, sep), sep) == parts
  {
    SplitJoin(parts, sep);
    SplitAllFree(parts, sep);
  }

  lemma {:induction false} SplitAllFree(parts: seq<string>, sep: char)
    requires forall i :: 0 <= i < |parts| ==> sep !in parts[i]
    ensures SplitAll(parts, sep) == parts
    decreases |parts|
  {
    if |parts| > 0 {
      SplitFree(parts[0], sep);
      SplitAllFree(parts[1..], sep);
      assert [parts[0]] + parts[1..] == parts;
    }
  }

  /** A joined string holds no character that is neither the separator nor in a part. */
  lemma {:induction false} JoinFree(parts: seq<string>, sep: char, c: char)
    requires c != sep
    requires forall i :: 0 <= i < |parts| ==> c !in parts[i]
    ensures c !in Join(parts, sep)
    decreases |parts|
  {
    if |parts| >= 2 {
      JoinFree(parts[1..], sep, c);
    }
  }
}
