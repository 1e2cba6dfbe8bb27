/** Cutting a sequence at every separator, and gluing the pieces back. */
module Pieces {

  /** The pieces between separators: one more than there are separators. */
  function Split<T(==)>(s: seq<T>, sep: T): (r: seq<seq<T>>)
    ensures |r| > 0
    ensures forall i | 0 <= i < |r| :: sep !in r[i]
  {
    if s == [] then [[]]
    else if s[0] == sep then [[]] + Split(s[1..], sep)
    else Led(s[0], Split(s[1..], sep))
  }

  /** The first piece grows at the front. */
  function Led<T>(c: T, pieces: seq<seq<T>>): (r: seq<seq<T>>)
    requires |pieces| > 0
    ensures |r| == |pieces|
  {
    [[c] + pieces[0]] + pieces[1..]
  }

  function Join<T>(pieces: seq<seq<T>>, sep: T): seq<T> {
    if |pieces| == 0 then []
    else if |pieces| == 1 then pieces[0]
    else pieces[0] + [sep] + Join(pieces[1..], sep)
  }

  /** Two lists of pieces that share the piece at the cut. */
  function Spliced<T>(a: seq<seq<T>>, b: seq<seq<T>>): seq<seq<T>>
    requires |a| > 0 && |b| > 0
  {
    a[..|a| - 1] + [a[|a| - 1] + b[0]] + b[1..]
  }

  lemma {:induction false} SplicedOfLed<T>(c: T, a: seq<seq<T>>, b: seq<seq<T>>)
    requires |a| > 0 && |b| > 0
    ensures Spliced(Led(c, a), b) == Led(c, Spliced(a, b))
  {
    if |a| == 1 {
      assert [c] + (a[0] + b[0]) == ([c] + a[0]) + b[0];
    }
  }

  lemma {:induction false} SplicedOfCut<T>(a: seq<seq<T>>, b: seq<seq<T>>)
    requires |a| > 0 && |b| > 0
    ensures Spliced([[]] + a, b) == [[]] + Spliced(a, b)
  {
    assert ([[]] + a)[..|a|] == [[]] + a[..|a| - 1];
  }

  lemma {:induction false} SplitOfConcat<T>(a: seq<T>, b: seq<T>, sep: T)
    ensures Split(a + b, sep) == Spliced(Split(a, sep), Split(b, sep))
  {
    if a == [] {
      assert a + b == b;
      assert [] + Split(b, sep)[0] == Split(b, sep)[0];
    } else {
      SplitOfConcat(a[1..], b, sep);
      assert (a + b)[1..] == a[1..] + b && (a + b)[0] == a[0];
      SplicedOfLed(a[0], Split(a[1..], sep), Split(b, sep));
      SplicedOfCut(Split(a[1..], sep), Split(b, sep));
    }
  }

  lemma {:induction false} SplitOfOnePiece<T>(s: seq<T>, sep: T)
    requires sep !in s
    ensures Split(s, sep) == [s]
  {
    if s != [] {
      SplitOfOnePiece(s[1..], sep);
      assert s == [s[0]] + s[1..];
    }
  }

  lemma {:induction false} JoinOfSplit<T>(s: seq<T>, sep: T)
    ensures Join(Split(s, sep), sep) == s
  {
    if s != [] {
      JoinOfSplit(s[1..], sep);
      var rest := Split(s[1..], sep);
      if s[0] == sep {
        assert ([[]] + rest)[1..] == rest;
      } else if |rest| > 1 {
        assert Led(s[0], rest)[1..] == rest[1..];
      }
    }
  }

  lemma {:induction false} SplitOfJoin<T>(pieces: seq<seq<T>>, sep: T)
    requires pieces != [] && forall i | 0 <= i < |pieces| :: sep !in pieces[i]
    ensures Split(Join(pieces, sep), sep) == pieces
  {
    SplitOfOnePiece(pieces[0], sep);
    if |pieces| > 1 {
      var rest := Join(pieces[1..], sep);
      SplitOfJoin(pieces[1..], sep);
      SplitOfConcat(pieces[0], [sep] + rest, sep);
      assert pieces[0] + [sep] + rest == pieces[0] + ([sep] + rest);
      assert ([sep] + rest)[1..] == rest;
      assert Spliced([pieces[0]], [[]] + pieces[1..]) == pieces by {
        assert pieces[0] + [] == pieces[0];
      }
    }
  }
}
