/** String helpers with the semantics of Go's `strings`/`bytes` packages that the
    core relies on: `Split` on a one-character separator, `HasPrefix`, and the
    byte-wise lexicographic order behind Go's `<`/`>` on strings. */
module Text {

  /** Number of occurrences of `c` in `s`. */
  function Count(s: string, c: char): nat
  {
    if s == [] then 0 else (if s[0] == c then 1 else 0) + Count(s[1..], c)
  }

  /** Go's `strings.Split(s, string(sep))`: the pieces between separators,
      always one more piece than there are separators. */
  function Split(s: string, sep: char): (pieces: seq<string>)
    ensures |pieces| >= 1
  {
    if s == [] then [""]
    else if s[0] == sep then [""] + Split(s[1..], sep)
    else
      var rest := Split(s[1..], sep);
      [[s[0]] + rest[0]] + rest[1..]
  }

  /** Go's `strings.Join(pieces, string(sep))`. */
  function Join(pieces: seq<string>, sep: char): string
  {
    if pieces == [] then ""
    else if |pieces| == 1 then pieces[0]
    else pieces[0] + [sep] + Join(pieces[1..], sep)
  }

  lemma {:induction false} SplitCount(s: string, sep: char)
    ensures |Split(s, sep)| == Count(s, sep) + 1
  {
    if s != [] {
      SplitCount(s[1..], sep);
    }
  }

  lemma {:induction false} SplitPiecesHaveNoSeparator(s: string, sep: char)
    ensures forall i :: 0 <= i < |Split(s, sep)| ==> sep !in Split(s, sep)[i]
  {
    if s != [] {
      SplitPiecesHaveNoSeparator(s[1..], sep);
    }
  }

  /** Joining the pieces again gives back the original string. */
  lemma {:induction false} JoinSplit(s: string, sep: char)
    ensures Join(Split(s, sep), sep) == s
  {
    if s != [] {
      JoinSplit(s[1..], sep);
      var rest := Split(s[1..], sep);
      if s[0] == sep {
        assert Split(s, sep)[1..] == rest;
      } else if |rest| == 1 {
        assert Split(s, sep) == [[s[0]] + rest[0]];
      } else {
        var p := Split(s, sep);
        assert p[1..] == rest[1..];
        calc {
          Join(p, sep);
          p[0] + [sep] + Join(rest[1..], sep);
          [s[0]] + (rest[0] + [sep] + Join(rest[1..], sep));
          [s[0]] + Join(rest, sep);
        }
      }
    }
  }

  /** Splitting a join of separator-free pieces gives back the pieces. */
  lemma {:induction false} SplitJoin(pieces: seq<string>, sep: char)
    requires |pieces| >= 1
    requires forall i :: 0 <= i < |pieces| ==> sep !in pieces[i]
    ensures Split(Join(pieces, sep), sep) == pieces
  {
    if |pieces| == 1 {
      SplitNoSeparator(pieces[0], sep);
    } else {
      SplitJoin(pieces[1..], sep);
      SplitAppend(pieces[0], Join(pieces[1..], sep), sep);
      assert [pieces[0]] + pieces[1..] == pieces;
    }
  }

  lemma {:induction false} SplitNoSeparator(s: string, sep: char)
    requires sep !in s
    ensures Split(s, sep) == [s]
  {
    if s != [] {
      assert s[0] != sep && sep !in s[1..];
      SplitNoSeparator(s[1..], sep);
      assert [s[0]] + s[1..] == s;
    }
  }

  lemma {:induction false} SplitAppend(a: string, b: string, sep: char)
    requires sep !in a
    ensures Split(a + [sep] + b, sep) == [a] + Split(b, sep)
  {
    if a == [] {
      assert a + [sep] + b == [sep] + b;
      assert ([sep] + b)[1..] == b;
    } else {
      assert (a + [sep] + b)[1..] == a[1..] + [sep] + b;
      SplitAppend(a[1..], b, sep);
      assert [a[0]] + a[1..] == a;
    }
  }

  /** Go's `strings.HasPrefix`. */
  predicate HasPrefix(s: string, prefix: string)
  {
    |prefix| <= |s| && s[..|prefix|] == prefix
  }

  /** Go's `a < b` on strings: byte-wise lexicographic order (for the ASCII
      strings of this model, byte order and character order coincide). */
  predicate StringLess(a: string, b: string)
  {
    if a == [] then b != []
    else if b == [] then false
    else if a[0] != b[0] then a[0] < b[0]
    else StringLess(a[1..], b[1..])
  }

  lemma {:induction false} StringLessIrreflexive(a: string)
    ensures !StringLess(a, a)
  {
    if a != [] {
      StringLessIrreflexive(a[1..]);
    }
  }

  lemma {:induction false} StringLessTransitive(a: string, b: string, c: string)
    requires StringLess(a, b) && StringLess(b, c)
    ensures StringLess(a, c)
  {
    if a != [] && b != [] && c != [] && a[0] == b[0] && b[0] == c[0] {
      StringLessTransitive(a[1..], b[1..], c[1..]);
    }
  }

  lemma {:induction false} StringLessTotal(a: string, b: string)
    requires a != b
    ensures StringLess(a, b) || StringLess(b, a)
  {
    if a != [] && b != [] && a[0] == b[0] {
      assert a == [a[0]] + a[1..] && b == [b[0]] + b[1..];
      StringLessTotal(a[1..], b[1..]);
    }
  }
}
