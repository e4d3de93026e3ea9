/** The JavaScript string operations the generators use, on `seq<char>`:
    `Array.prototype.join`, `String.prototype.split` with a one-character
    separator, `indexOf`, `replace` of the first occurrence of a literal, and
    ASCII case mapping of one character. */
module Strings {
  import opened Wrappers

  /** `xs.join(sep)`: the items with `sep` between consecutive ones. */
  function Join(xs: seq<string>, sep: string): string
  {
    if |xs| == 0 then ""
    else if |xs| == 1 then xs[0]
    else xs[0] + sep + Join(xs[1..], sep)
  }

  lemma {:induction false} JoinAppend(xs: seq<string>, ys: seq<string>, sep: string)
    requires |xs| > 0 && |ys| > 0
    ensures Join(xs + ys, sep) == Join(xs, sep) + sep + Join(ys, sep)
  {
    if |xs| == 1 {
      assert (xs + ys)[1..] == ys;
    } else {
      assert (xs + ys)[1..] == xs[1..] + ys;
      JoinAppend(xs[1..], ys, sep);
    }
  }

  lemma JoinSingle(x: string, sep: string)
    ensures Join([x], sep) == x
  {
  }

  lemma {:induction false} JoinCons(x: string, ys: seq<string>, sep: string)
    requires |ys| > 0
    ensures Join([x] + ys, sep) == x + sep + Join(ys, sep)
  {
    JoinAppend([x], ys, sep);
  }

  /** Two blocks of lines, each line ended by `sep`, are the lines of both. */
  lemma JoinBlocks(a: seq<string>, b: seq<string>, sep: string)
    requires |a| > 0 && |b| > 0
    ensures (Join(a, sep) + sep) + (Join(b, sep) + sep) == Join(a + b, sep) + sep
  {
    JoinAppend(a, b, sep);
  }

  /** Three blocks of lines, each line ended by `sep`, the middle one
      possibly empty, are the lines of all three. */
  lemma JoinBlocks3(x: string, y: string, z: string, a: seq<string>, b: seq<string>, c: seq<string>, sep: string)
    requires |a| > 0 && |c| > 0
    requires x == Join(a, sep) + sep && z == Join(c, sep) + sep
    requires if |b| == 0 then y == "" else y == Join(b, sep) + sep
    ensures x + y + z == Join(a + b + c, sep) + sep
  {
    if |b| == 0 {
      assert a + b + c == a + c;
      JoinBlocks(a, c, sep);
    } else {
      JoinBlocks(a, b, sep);
      JoinBlocks(a + b, c, sep);
    }
  }

  /** Two such blocks with a separator between them: an empty line between. */
  lemma JoinBlocksApart(a: seq<string>, b: seq<string>, sep: string)
    requires |a| > 0 && |b| > 0
    ensures (Join(a, sep) + sep) + sep + (Join(b, sep) + sep) == Join(a + [""] + b, sep) + sep
  {
    var x, y := Join(a, sep), Join(b, sep);
    JoinEmptyLast(a, sep);
    JoinAppend(a + [""], b, sep);
    var j := Join(a + [""] + b, sep);
    assert j == (x + sep) + sep + y;
  }

  /** An empty last line adds only a separator. */
  lemma JoinEmptyLast(a: seq<string>, sep: string)
    requires |a| > 0
    ensures Join(a + [""], sep) == Join(a, sep) + sep
  {
    JoinAppend(a, [""], sep);
  }

  /** Two, three and four lines, each ended by `sep`. */
  lemma Join2(a: string, b: string, sep: string)
    ensures Join([a, b], sep) + sep == a + sep + b + sep
  {
    JoinAppend([a], [b], sep);
    assert [a] + [b] == [a, b];
  }

  lemma Join3(a: string, b: string, c: string, sep: string)
    ensures Join([a, b, c], sep) + sep == a + sep + b + sep + c + sep
  {
    JoinAppend([a], [b, c], sep);
    JoinAppend([b], [c], sep);
    assert [a] + [b, c] == [a, b, c];
    assert [b] + [c] == [b, c];
  }

  lemma Join4(a: string, b: string, c: string, d: string, sep: string)
    ensures Join([a, b, c, d], sep) + sep == a + sep + b + sep + c + sep + d + sep
  {
    JoinAppend([a], [b, c, d], sep);
    JoinAppend([b], [c, d], sep);
    JoinAppend([c], [d], sep);
    assert [a] + [b, c, d] == [a, b, c, d];
    assert [b] + [c, d] == [b, c, d];
    assert [c] + [d] == [c, d];
  }

  /** `s.split(c)`: the maximal pieces of `s` between occurrences of `c`;
      there is always one piece more than there are separators. */
  function Split(s: string, c: char): (r: seq<string>)
    ensures |r| >= 1
    decreases |s|
  {
    if |s| == 0 then [""]
    else
      var rest := Split(s[1..], c);
      if s[0] == c then [""] + rest else [[s[0]] + rest[0]] + rest[1..]
  }

  /** The lines of a text, as `text.split('\n')` gives them. */
  function Lines(s: string): (r: seq<string>)
    ensures |r| >= 1
  {
    Split(s, '\n')
  }

  /** No piece of a split holds the separator. */
  lemma {:induction false} SplitPiecesFree(s: string, c: char)
    ensures forall i :: 0 <= i < |Split(s, c)| ==> c !in Split(s, c)[i]
    decreases |s|
  {
    if |s| > 0 {
      SplitPiecesFree(s[1..], c);
      var rest := Split(s[1..], c);
      if s[0] != c {
        assert forall i :: 1 <= i < |Split(s, c)| ==> Split(s, c)[i] == rest[i];
        assert Split(s, c)[0] == [s[0]] + rest[0];
      } else {
        assert forall i :: 1 <= i < |Split(s, c)| ==> Split(s, c)[i] == rest[i - 1];
      }
    }
  }

  lemma {:induction false} SplitNoSeparator(s: string, c: char)
    requires c !in s
    ensures Split(s, c) == [s]
    decreases |s|
  {
    if |s| > 0 {
      assert c !in s[1..] by {
        forall k | 0 <= k < |s[1..]| ensures s[1..][k] != c { assert s[1..][k] == s[k + 1]; }
      }
      SplitNoSeparator(s[1..], c);
      assert [s[0]] + s[1..] == s;
    }
  }

  /** One step of the split: the first character starts a new piece or
      joins the first piece of the rest. */
  lemma SplitStep(s: string, c: char)
    requires |s| > 0
    ensures s[0] == c ==> Split(s, c) == [""] + Split(s[1..], c)
    ensures s[0] != c ==> Split(s, c) == [[s[0]] + Split(s[1..], c)[0]] + Split(s[1..], c)[1..]
  {
  }

  /** Splitting at a separator splits the two sides independently. */
  lemma {:induction false} SplitAround(a: string, b: string, c: char)
    ensures Split(a + [c] + b, c) == Split(a, c) + Split(b, c)
    decreases |a|
  {
    if |a| == 0 {
      assert a + [c] + b == [c] + b;
      assert ([c] + b)[1..] == b;
    } else {
      var x := a + [c] + b;
      assert x[0] == a[0];
      assert x[1..] == a[1..] + [c] + b;
      SplitAround(a[1..], b, c);
      SplitStep(x, c);
      SplitStep(a, c);
    }
  }

  /** The pieces of every item of `xs`, one after the other. */
  function SplitMany(xs: seq<string>, c: char): seq<string>
  {
    if |xs| == 0 then [] else Split(xs[0], c) + SplitMany(xs[1..], c)
  }

  /** Splitting a joined list gives the pieces of each item. */
  lemma {:induction false} SplitJoin(xs: seq<string>, c: char)
    requires |xs| > 0
    ensures Split(Join(xs, [c]), c) == SplitMany(xs, c)
  {
    if |xs| == 1 {
      assert SplitMany(xs[1..], c) == [];
    } else {
      SplitJoin(xs[1..], c);
      SplitAround(xs[0], Join(xs[1..], [c]), c);
      assert xs[0] + [c] + Join(xs[1..], [c]) == Join(xs, [c]);
    }
  }

  lemma {:induction false} SplitManyPlain(xs: seq<string>, c: char)
    requires forall i :: 0 <= i < |xs| ==> c !in xs[i]
    ensures SplitMany(xs, c) == xs
  {
    if |xs| > 0 {
      SplitNoSeparator(xs[0], c);
      SplitManyPlain(xs[1..], c);
    }
  }

  /** Round trip: a non-empty list of items free of `c`, joined with `c`,
      splits back into the same list. */
  lemma SplitJoinRoundTrip(xs: seq<string>, c: char)
    requires |xs| > 0
    requires forall i :: 0 <= i < |xs| ==> c !in xs[i]
    ensures Split(Join(xs, [c]), c) == xs
  {
    SplitJoin(xs, c);
    SplitManyPlain(xs, c);
  }

  lemma SplitManyCons(x: string, xs: seq<string>, c: char)
    ensures SplitMany([x] + xs, c) == Split(x, c) + SplitMany(xs, c)
  {
    assert ([x] + xs)[1..] == xs;
  }

  lemma {:induction false} SplitManyAppend(xs: seq<string>, ys: seq<string>, c: char)
    ensures SplitMany(xs + ys, c) == SplitMany(xs, c) + SplitMany(ys, c)
  {
    if |xs| == 0 {
      assert xs + ys == ys;
    } else {
      assert (xs + ys)[1..] == xs[1..] + ys;
      SplitManyAppend(xs[1..], ys, c);
    }
  }

  /** The lines of a block of single-line texts, a line break, and further
      texts with an empty one at the end. */
  lemma LinesOfBlocks(hl: seq<string>, ts: seq<string>)
    requires |hl| > 0
    requires forall i :: 0 <= i < |hl| ==> '\n' !in hl[i]
    ensures Lines(Join(hl, "\n") + ['\n'] + Join(ts + [""], "\n")) == hl + SplitMany(ts, '\n') + [""]
  {
    SplitAround(Join(hl, "\n"), Join(ts + [""], "\n"), '\n');
    SplitJoinRoundTrip(hl, '\n');
    SplitJoin(ts + [""], '\n');
    SplitManyAppend(ts, [""], '\n');
  }

  /** Round trip the other way: joining the pieces with `c` restores `s`. */
  lemma {:induction false} JoinSplitRoundTrip(s: string, c: char)
    ensures Join(Split(s, c), [c]) == s
    decreases |s|
  {
    if |s| > 0 {
      var rest := Split(s[1..], c);
      JoinSplitRoundTrip(s[1..], c);
      if s[0] == c {
        JoinCons("", rest, [c]);
      } else if |rest| == 1 {
        assert Split(s, c) == [[s[0]] + rest[0]];
      } else {
        assert Split(s, c) == [[s[0]] + rest[0]] + rest[1..];
        JoinCons([s[0]] + rest[0], rest[1..], [c]);
        JoinCons(rest[0], rest[1..], [c]);
        assert [rest[0]] + rest[1..] == rest;
      }
    }
  }

  function Flatten<T>(xss: seq<seq<T>>): seq<T>
  {
    if |xss| == 0 then [] else xss[0] + Flatten(xss[1..])
  }

  lemma {:induction false} FlattenAppend<T>(xss: seq<seq<T>>, yss: seq<seq<T>>)
    ensures Flatten(xss + yss) == Flatten(xss) + Flatten(yss)
  {
    if |xss| == 0 {
      assert xss + yss == yss;
    } else {
      assert (xss + yss)[1..] == xss[1..] + yss;
      FlattenAppend(xss[1..], yss);
    }
  }

  /** `pat` occurs in `s` starting at index `i`. */
  predicate OccursAt(s: string, pat: string, i: nat)
  {
    i + |pat| <= |s| && s[i..i + |pat|] == pat
  }

  /** `s.indexOf(pat, from)`: the first index at or after `from` where `pat`
      occurs. */
  function IndexOfFrom(s: string, pat: string, from: nat): (r: Option<nat>)
    requires from <= |s|
    ensures r.Some? ==> from <= r.value && OccursAt(s, pat, r.value)
    ensures r.Some? ==> forall j :: from <= j < r.value ==> !OccursAt(s, pat, j)
    ensures r.None? ==> forall j :: from <= j <= |s| ==> !OccursAt(s, pat, j)
    decreases |s| - from
  {
    if OccursAt(s, pat, from) then Some(from)
    else if from == |s| then None
    else IndexOfFrom(s, pat, from + 1)
  }

  function IndexOf(s: string, pat: string): Option<nat>
  {
    IndexOfFrom(s, pat, 0)
  }

  /** `s.replace(pat, rep)` with a literal `pat`: only the first occurrence
      is replaced. */
  function ReplaceFirst(s: string, pat: string, rep: string): string
  {
    match IndexOf(s, pat)
    case None => s
    case Some(i) => s[..i] + rep + s[i + |pat|..]
  }

  /** `toLowerCase` on one ASCII character; other characters are kept. */
  function LowerChar(c: char): char
  {
    if 'A' <= c <= 'Z' then (c as int + 32) as char else c
  }

  /** `toUpperCase` on one ASCII character; other characters are kept. */
  function UpperChar(c: char): char
  {
    if 'a' <= c <= 'z' then (c as int - 32) as char else c
  }

  /** `s.charAt(0).toLowerCase() + s.slice(1)`. */
  function LowerFirst(s: string): string
  {
    if |s| == 0 then "" else [LowerChar(s[0])] + s[1..]
  }

  /** `s.charAt(0).toUpperCase() + s.slice(1)`. */
  function UpperFirst(s: string): string
  {
    if |s| == 0 then "" else [UpperChar(s[0])] + s[1..]
  }

  predicate EndsWith(s: string, suffix: string)
  {
    |suffix| <= |s| && s[|s| - |suffix|..] == suffix
  }

  /** Taking one more item of a list appends that item. */
  lemma TakeSnoc<T>(s: seq<T>, i: nat)
    requires i < |s|
    ensures s[..i + 1] == s[..i] + [s[i]]
  {
  }

  lemma NotInSlice(s: string, c: char, lo: nat, hi: nat)
    requires c !in s && lo <= hi <= |s|
    ensures c !in s[lo..hi]
  {
  }

  /** `pat` does not occur at `j` when the characters at offset `m`
      differ. */
  lemma MismatchNoOccurrence(s: string, pat: string, j: nat, m: nat)
    requires m < |pat| && j + m < |s| && s[j + m] != pat[m]
    ensures !OccursAt(s, pat, j)
  {
  }
}
