/** Python's `sep.join(xs)` and its inverse for the ", " separator used in the
    missing-fields message. */
module Text {

  /** The total length of a list of strings. */
  function TotalLength(xs: seq<string>): nat
  {
    if |xs| == 0 then 0 else |xs[0]| + TotalLength(xs[1..])
  }

  /** `sep.join(xs)`: the items in order with one separator between each
      neighbouring pair, so nothing is added before the first or after the
      last. */
  function Join(xs: seq<string>, sep: string): (r: string)
    ensures |xs| > 0 ==> |r| == TotalLength(xs) + (|xs| - 1) * |sep|
    ensures |xs| > 0 ==> r[..|xs[0]|] == xs[0]
    ensures |xs| == 0 ==> r == ""
    decreases |xs|
  {
    if |xs| == 0 then ""
    else if |xs| == 1 then xs[0]
    else xs[0] + sep + Join(xs[1..], sep)
  }

  /** Appending an item appends one separator and the item, so a joined
      text is its items in order with a separator between neighbours. */
  lemma {:induction false} JoinAppend(xs: seq<string>, x: string, sep: string)
    requires |xs| > 0
    ensures Join(xs + [x], sep) == Join(xs, sep) + sep + x
    decreases |xs|
  {
    var ys := xs + [x];
    assert ys[0] == xs[0];
    if |xs| == 1 {
      assert ys[1..] == [x];
    } else {
      assert ys[1..] == xs[1..] + [x];
      JoinAppend(xs[1..], x, sep);
      assert xs[0] + sep + (Join(xs[1..], sep) + sep + x) == (xs[0] + sep + Join(xs[1..], sep)) + sep + x;
    }
  }

  /** `s.split(", ")`: the pieces of `s` between occurrences of ", ". */
  function SplitList(s: string): (r: seq<string>)
    ensures |r| >= 1
    decreases |s|
  {
    if |s| == 0 then [""]
    else if |s| >= 2 && s[0] == ',' && s[1] == ' ' then [""] + SplitList(s[2..])
    else
      var rest := SplitList(s[1..]);
      [[s[0]] + rest[0]] + rest[1..]
  }

  predicate NoComma(xs: seq<string>)
  {
    forall x :: x in xs ==> ',' !in x
  }

  lemma {:induction false} SplitPlain(a: string)
    requires ',' !in a
    ensures SplitList(a) == [a]
  {
    if |a| > 0 {
      assert ',' !in a[1..];
      SplitPlain(a[1..]);
      assert [a[0]] + a[1..] == a;
    }
  }

  lemma {:induction false} SplitPrefix(a: string, t: string)
    requires ',' !in a
    ensures SplitList(a + ", " + t) == [a] + SplitList(t)
  {
    var s := a + ", " + t;
    if |a| == 0 {
      assert s == ", " + t;
      assert s[2..] == t;
    } else {
      assert s[0] == a[0];
      assert s[1..] == a[1..] + ", " + t;
      assert ',' !in a[1..];
      SplitPrefix(a[1..], t);
      assert [a[0]] + a[1..] == a;
    }
  }

  /** Splitting a joined list of comma-free names gives the names back. */
  lemma {:induction false} SplitJoin(xs: seq<string>)
    requires |xs| >= 1 && NoComma(xs)
    ensures SplitList(Join(xs, ", ")) == xs
  {
    var head, tail := xs[0], xs[1..];
    assert head in xs;
    if |xs| == 1 {
      SplitPlain(head);
    } else {
      var joined := Join(tail, ", ");
      assert Join(xs, ", ") == head + ", " + joined;
      assert NoComma(tail) by {
        forall x | x in tail ensures ',' !in x {
          assert x in xs;
        }
      }
      SplitJoin(tail);
      SplitPrefix(head, joined);
      assert [head] + tail == xs;
    }
  }
}
