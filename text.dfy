/**
 * JavaScript's `String.prototype.trim`, `split` on a one-character
 * separator and `Array.prototype.join`, with the round trips between them.
 */
module Text {

  /** ECMAScript WhiteSpace and LineTerminator code points: what `trim` removes. */
  predicate IsSpace(c: char)
  {
    || c == '\t' || c == '\n' || c == '\U{000B}' || c == '\U{000C}' || c == '\r' || c == ' '
    || c == '\U{00A0}' || c == '\U{1680}' || ('\U{2000}' <= c <= '\U{200A}')
    || c == '\U{2028}' || c == '\U{2029}' || c == '\U{202F}' || c == '\U{205F}'
    || c == '\U{3000}' || c == '\U{FEFF}'
  }

  predicate AllSpace(s: string)
  {
    forall i :: 0 <= i < |s| ==> IsSpace(s[i])
  }

  /** No white space at either end. */
  predicate IsTrimmed(s: string)
  {
    s == [] || (!IsSpace(s[0]) && !IsSpace(s[|s| - 1]))
  }

  function TrimStart(s: string): (r: string)
    ensures r == [] || !IsSpace(r[0])
    ensures |r| <= |s| && r == s[|s| - |r|..]
    ensures AllSpace(s[..|s| - |r|])
    decreases |s|
  {
    if s != [] && IsSpace(s[0]) then
      var r := TrimStart(s[1..]);
      assert s[1..][|s| - 1 - |r|..] == s[|s| - |r|..];
      assert forall i :: 1 <= i < |s| - |r| ==> s[i] == s[1..][..|s| - 1 - |r|][i - 1];
      r
    else s
  }

  function TrimEnd(s: string): (r: string)
    ensures r == [] || !IsSpace(r[|r| - 1])
    ensures |r| <= |s| && r == s[..|r|]
    ensures AllSpace(s[|r|..])
    decreases |s|
  {
    if s != [] && IsSpace(s[|s| - 1]) then
      var r := TrimEnd(s[..|s| - 1]);
      assert s[..|s| - 1][..|r|] == s[..|r|];
      assert forall i :: |r| <= i < |s| - 1 ==> s[i] == s[..|s| - 1][|r|..][i - |r|];
      r
    else s
  }

  /** `s.trim()` */
  function Trim(s: string): (r: string)
    ensures IsTrimmed(r)
  {
    var t := TrimStart(s);
    var r := TrimEnd(t);
    assert r != [] ==> r[0] == t[0];
    r
  }

  /** `trim` keeps a slice of the text and cuts nothing but white space from either end. */
  lemma TrimCutsOnlyEndSpace(s: string)
    ensures exists i, j :: 0 <= i <= j <= |s| && Trim(s) == s[i..j] && AllSpace(s[..i]) && AllSpace(s[j..])
  {
    var t := TrimStart(s);
    var r := TrimEnd(t);
    var i := |s| - |t|;
    var j := i + |r|;
    assert r == s[i..j];
    assert s[j..] == t[|r|..];
  }

  lemma TrimOfTrimmed(s: string)
    requires IsTrimmed(s)
    ensures Trim(s) == s
  {
  }

  /** Spaces in front of a trimmed, non-empty string are all that `trim` takes away. */
  lemma {:induction false} TrimAfterSpaces(pad: string, s: string)
    requires AllSpace(pad)
    requires IsTrimmed(s) && s != []
    ensures Trim(pad + s) == s
    decreases |pad|
  {
    if pad == [] {
      assert pad + s == s;
    } else {
      assert (pad + s)[1..] == pad[1..] + s;
      TrimAfterSpaces(pad[1..], s);
    }
  }

  /** `s.split(c)`: the pieces between occurrences of `c`; always at least one piece. */
  function Split(s: string, c: char): (r: seq<string>)
    ensures |r| >= 1
    ensures forall k :: 0 <= k < |r| ==> c !in r[k]
    decreases |s|
  {
    if s == [] then [""]
    else
      var rest := Split(s[1..], c);
      if s[0] == c then [""] + rest
      else [[s[0]] + rest[0]] + rest[1..]
  }

  /** `xs.join(sep)` */
  function Join(xs: seq<string>, sep: string): (r: string)
    decreases |xs|
  {
    if xs == [] then ""
    else if |xs| == 1 then xs[0]
    else xs[0] + sep + Join(xs[1..], sep)
  }

  /** Splitting and joining on the same character are inverse: nothing is lost by `split`. */
  lemma {:induction false} JoinSplit(s: string, c: char)
    ensures Join(Split(s, c), [c]) == s
    decreases |s|
  {
    if s != [] {
      JoinSplit(s[1..], c);
      var rest := Split(s[1..], c);
      if s[0] == c {
        assert Split(s, c) == [""] + rest;
        assert ([""] + rest)[1..] == rest;
        assert s == [c] + s[1..];
      } else {
        var r := Split(s, c);
        assert r == [[s[0]] + rest[0]] + rest[1..];
        if |rest| == 1 {
          assert s == [s[0]] + s[1..];
        } else {
          assert r[1..] == rest[1..];
          assert Join(rest, [c]) == rest[0] + [c] + Join(rest[1..], [c]);
          assert s == [s[0]] + s[1..];
        }
      }
    }
  }

  /** A text with no separator is one piece. */
  lemma {:induction false} SplitWithout(s: string, c: char)
    requires c !in s
    ensures Split(s, c) == [s]
    decreases |s|
  {
    if s != [] {
      assert c !in s[1..] && s[0] != c;
      SplitWithout(s[1..], c);
      assert [s[0]] + s[1..] == s;
    }
  }

  /** A separator-free prefix is glued onto the first piece. */
  lemma {:induction false} SplitPrepend(p: string, s: string, c: char)
    requires c !in p
    ensures Split(p + s, c) == [p + Split(s, c)[0]] + Split(s, c)[1..]
    decreases |p|
  {
    if p != [] {
      assert (p + s)[1..] == p[1..] + s;
      assert c !in p[1..];
      SplitPrepend(p[1..], s, c);
      assert [p[0]] + (p[1..] + Split(s, c)[0]) == p + Split(s, c)[0];
    } else {
      var r := Split(s, c);
      assert p + s == s && p + r[0] == r[0];
      assert [r[0]] + r[1..] == r;
    }
  }

  /** Splitting `a + [c] + b` on `c`, where `a` holds no `c`, yields `a` followed by the pieces of `b`. */
  lemma {:induction false} SplitAtSeparator(a: string, b: string, c: char)
    requires c !in a
    ensures Split(a + [c] + b, c) == [a] + Split(b, c)
  {
    assert a + [c] + b == a + ([c] + b);
    SplitPrepend(a, [c] + b, c);
    assert ([c] + b)[1..] == b;
    var rest := Split(b, c);
    assert Split([c] + b, c) == [""] + rest;
    assert ([""] + rest)[1..] == rest;
    assert a + "" == a;
  }

  /** The pieces that `split` returns for a text joined with `[c] + pad`: every piece but the first carries `pad` in front. */
  function Padded(xs: seq<string>, pad: string): (r: seq<string>)
    requires xs != []
    ensures |r| == |xs| && r[0] == xs[0]
    ensures forall k :: 1 <= k < |xs| ==> r[k] == pad + xs[k]
  {
    [xs[0]] + seq(|xs| - 1, k requires 0 <= k < |xs| - 1 => pad + xs[k + 1])
  }

  /** Joining with a separator that starts with `c`, then splitting on `c`, gives the elements back (each but the first after `pad`) when no element holds `c`. */
  lemma {:induction false} SplitJoin(xs: seq<string>, c: char, pad: string)
    requires xs != []
    requires c !in pad
    requires forall k :: 0 <= k < |xs| ==> c !in xs[k]
    ensures Split(Join(xs, [c] + pad), c) == Padded(xs, pad)
    decreases |xs|
  {
    if |xs| == 1 {
      SplitWithout(xs[0], c);
    } else {
      var rest := xs[1..];
      SplitJoin(rest, c, pad);
      var tail := Join(rest, [c] + pad);
      assert Join(xs, [c] + pad) == xs[0] + [c] + (pad + tail);
      SplitAtSeparator(xs[0], pad + tail, c);
      SplitPrepend(pad, tail, c);
      var pr := Padded(rest, pad);
      assert Split(pad + tail, c) == [pad + pr[0]] + pr[1..];
      var r := [xs[0]] + ([pad + pr[0]] + pr[1..]);
      assert |r| == |xs|;
      forall k | 1 <= k < |xs| ensures r[k] == pad + xs[k] {
        if k > 1 {
          assert r[k] == pr[k - 1];
        }
      }
      assert r == Padded(xs, pad);
    }
  }

  /** With nothing after the separator, the pieces are the elements themselves. */
  lemma SplitJoinPlain(xs: seq<string>, c: char)
    requires xs != []
    requires forall k :: 0 <= k < |xs| ==> c !in xs[k]
    ensures Split(Join(xs, [c]), c) == xs
  {
    assert [c] + "" == [c];
    SplitJoin(xs, c, "");
    var r := Padded(xs, "");
    forall k | 1 <= k < |xs| ensures r[k] == xs[k] {
      assert "" + xs[k] == xs[k];
    }
  }

  /** A character in neither the elements nor the separator is not in the joined text. */
  lemma {:induction false} JoinAvoids(xs: seq<string>, sep: string, c: char)
    requires c !in sep
    requires forall k :: 0 <= k < |xs| ==> c !in xs[k]
    ensures c !in Join(xs, sep)
    decreases |xs|
  {
    if |xs| > 1 {
      JoinAvoids(xs[1..], sep, c);
    }
  }

  /** `split` yields one piece more than there are separators. */
  lemma {:induction false} SplitCount(s: string, c: char)
    ensures |Split(s, c)| == 1 + multiset(s)[c]
    decreases |s|
  {
    if s != [] {
      SplitCount(s[1..], c);
      assert s == [s[0]] + s[1..];
      assert multiset(s) == multiset([s[0]]) + multiset(s[1..]);
    }
  }

  /** The number of occurrences of `c` over all elements. */
  function Occurrences(xs: seq<string>, c: char): nat
    decreases |xs|
  {
    if xs == [] then 0 else multiset(xs[0])[c] + Occurrences(xs[1..], c)
  }

  lemma {:induction false} OccurrencesAppend(a: seq<string>, b: seq<string>, c: char)
    ensures Occurrences(a + b, c) == Occurrences(a, c) + Occurrences(b, c)
    decreases |a|
  {
    if a != [] {
      OccurrencesAppend(a[1..], b, c);
      assert (a + b)[1..] == a[1..] + b;
    } else {
      assert a + b == b;
    }
  }

  /** When only the string at `k` can hold `c`, every occurrence is in that one string. */
  lemma OccurrencesOnlyAt(xs: seq<string>, k: nat, c: char)
    requires k < |xs|
    requires forall j :: 0 <= j < |xs| && j != k ==> c !in xs[j]
    ensures Occurrences(xs, c) == multiset(xs[k])[c]
  {
    var front, back := xs[..k], xs[k+1..];
    forall j | 0 <= j < |front| ensures c !in front[j] {
      assert front[j] == xs[j];
    }
    forall j | 0 <= j < |back| ensures c !in back[j] {
      assert back[j] == xs[k + 1 + j];
    }
    assert xs == front + ([xs[k]] + back);
    OccurrencesAppend(front, [xs[k]] + back, c);
    OccurrencesAppend([xs[k]], back, c);
    assert [xs[k]][1..] == [];
    OccurrencesNone(front, c);
    OccurrencesNone(back, c);
  }

  lemma {:induction false} OccurrencesNone(xs: seq<string>, c: char)
    requires forall k :: 0 <= k < |xs| ==> c !in xs[k]
    ensures Occurrences(xs, c) == 0
    decreases |xs|
  {
    if xs != [] {
      OccurrencesNone(xs[1..], c);
    }
  }

  /** Joining on `c` adds one `c` between each pair of elements. */
  lemma {:induction false} JoinCount(xs: seq<string>, c: char)
    requires xs != []
    ensures multiset(Join(xs, [c]))[c] == Occurrences(xs, c) + |xs| - 1
    decreases |xs|
  {
    if |xs| > 1 {
      JoinCount(xs[1..], c);
      var rest := Join(xs[1..], [c]);
      assert Join(xs, [c]) == xs[0] + [c] + rest;
      assert multiset(xs[0] + [c] + rest) == multiset(xs[0]) + multiset([c]) + multiset(rest);
    } else {
      assert Occurrences(xs, c) == multiset(xs[0])[c];
    }
  }

  /** Splitting a joined text on the joining character yields more pieces than elements as soon as an element holds that character. */
  lemma SplitJoinCount(xs: seq<string>, c: char)
    requires xs != []
    ensures |Split(Join(xs, [c]), c)| == |xs| + Occurrences(xs, c)
  {
    SplitCount(Join(xs, [c]), c);
    JoinCount(xs, c);
  }
}
