/** JavaScript's `String.prototype.split` with a one-character
    separator, and its inverse `Array.prototype.join`. The tag filter
    (`tags.split(',')`) keeps every piece as it is: no trimming, no
    de-duplication, no sorting, empty pieces included. */
module Strings {

  /** `s.split(sep)`: the maximal separator-free pieces of `s`, in order.
      An empty string gives one empty piece, as in JavaScript. */
  function Split(s: string, sep: char): (parts: seq<string>)
    ensures |parts| >= 1
    ensures forall i :: 0 <= i < |parts| ==> sep !in parts[i]
  {
    if s == [] then [""]
    else
      var rest := Split(s[1..], sep);
      if s[0] == sep then [""] + rest
      else [[s[0]] + rest[0]] + rest[1..]
  }

  /** `parts.join(sep)`. */
  function Join(parts: seq<string>, sep: char): string
    requires |parts| >= 1
  {
    if |parts| == 1 then parts[0] else parts[0] + [sep] + Join(parts[1..], sep)
  }

  /** Splitting loses nothing: joining the pieces back gives the input. */
  lemma {:induction false} JoinSplit(s: string, sep: char)
    ensures Join(Split(s, sep), sep) == s
  {
    if s != [] {
      var rest := Split(s[1..], sep);
      JoinSplit(s[1..], sep);
      if s[0] == sep {
        assert Split(s, sep)[1..] == rest;
      } else {
        var parts := Split(s, sep);
        assert parts[0] == [s[0]] + rest[0];
        if |rest| == 1 {
          assert parts == [[s[0]] + rest[0]];
        } else {
          assert parts[1..] == rest[1..];
          assert Join(rest, sep) == rest[0] + [sep] + Join(rest[1..], sep);
        }
      }
    }
  }

  /** A separator-free string splits into itself, and a separator after
      it starts a new piece. */
  lemma {:induction false} SplitPiece(a: string, sep: char, b: string)
    requires sep !in a
    ensures Split(a, sep) == [a]
    ensures Split(a + [sep] + b, sep) == [a] + Split(b, sep)
  {
    if a != [] {
      SplitPiece(a[1..], sep, b);
      assert (a + [sep] + b)[1..] == a[1..] + [sep] + b;
      assert [a[0]] + a[1..] == a;
    } else {
      assert a + [sep] + b == [sep] + b;
      assert ([sep] + b)[1..] == b;
    }
  }

  /** Joining separator-free pieces and splitting again gives back the
      very same pieces, in the same order. */
  lemma {:induction false} SplitJoin(parts: seq<string>, sep: char)
    requires |parts| >= 1
    requires forall i :: 0 <= i < |parts| ==> sep !in parts[i]
    ensures Split(Join(parts, sep), sep) == parts
  {
    SplitPiece(parts[0], sep, []);
    if |parts| > 1 {
      SplitJoin(parts[1..], sep);
      SplitPiece(parts[0], sep, Join(parts[1..], sep));
      assert parts == [parts[0]] + parts[1..];
    }
  }

  /** The tag list is taken verbatim: spaces, repeats and order survive. */
  lemma SplitKeepsSpacesAndRepeats()
    ensures Split("b, a,b", ',') == ["b", " a", "b"]
  {
    SplitPiece("b", ',', " a,b");
    SplitPiece(" a", ',', "b");
    SplitPiece("b", ',', "");
    assert "b" + [','] + " a,b" == "b, a,b";
    assert " a" + [','] + "b" == " a,b";
  }
}
