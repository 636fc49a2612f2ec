/** String helpers standing in for the parts of Go's `strings`, `unicode` and
    `fmt` packages that the model relies on. Strings are sequences of code
    points; case mapping covers the ASCII letters only. */
module Strings {
  import opened Wrappers

  // ---------------------------------------------------------------- case

  predicate IsUpperAscii(c: char) {
    'A' <= c <= 'Z'
  }

  /** `unicode.ToLower`, restricted to the ASCII letters. */
  function LowerChar(c: char): char {
    if IsUpperAscii(c) then (c as int + 32) as char else c
  }

  /** `strings.ToLower`, restricted to the ASCII letters. */
  function Lower(s: string): (r: string)
    ensures |r| == |s|
    ensures forall i :: 0 <= i < |s| ==> r[i] == LowerChar(s[i])
  {
    seq(|s|, i requires 0 <= i < |s| => LowerChar(s[i]))
  }

  /** A lower-cased string holds no upper-case ASCII letter. */
  lemma LowerHasNoUpper(s: string)
    ensures forall i :: 0 <= i < |Lower(s)| ==> !IsUpperAscii(Lower(s)[i])
  {
  }

  /** `strings.EqualFold`, restricted to ASCII case folding. */
  predicate EqualFold(a: string, b: string) {
    Lower(a) == Lower(b)
  }

  // ---------------------------------------------------------- substrings

  /** `strings.HasPrefix`. */
  predicate HasPrefix(s: string, p: string) {
    |p| <= |s| && s[..|p|] == p
  }

  /** A prefix of `s` is a prefix of anything that extends `s`. */
  lemma PrefixOfAppend(s: string, t: string, p: string)
    requires HasPrefix(s, p)
    ensures HasPrefix(s + t, p)
  {
    assert (s + t)[..|p|] == s[..|p|];
  }

  /** `strings.HasSuffix`. */
  predicate HasSuffix(s: string, p: string) {
    |p| <= |s| && s[|s| - |p|..] == p
  }

  /** `p` occurs in `s` starting at index `i`. */
  predicate OccursAt(s: string, p: string, i: int) {
    0 <= i && i + |p| <= |s| && s[i..i + |p|] == p
  }

  /** `strings.Contains`. */
  predicate Contains(s: string, p: string) {
    exists i | 0 <= i <= |s| :: OccursAt(s, p, i)
  }

  /** A prefix or a suffix is also a substring, so a test of the form
      "has prefix or has suffix or contains" is just "contains". */
  lemma PrefixOrSuffixOrContains(s: string, p: string)
    ensures (HasPrefix(s, p) || HasSuffix(s, p) || Contains(s, p)) <==> Contains(s, p)
  {
    if HasPrefix(s, p) {
      assert OccursAt(s, p, 0);
    }
    if HasSuffix(s, p) {
      assert OccursAt(s, p, |s| - |p|);
    }
  }

  // -------------------------------------------------------------- joining

  /** `strings.Join`: the elements with `sep` between them and nothing after the last. */
  function Join(xs: seq<string>, sep: string): string
    decreases |xs|
  {
    if |xs| == 0 then ""
    else if |xs| == 1 then xs[0]
    else xs[0] + sep + Join(xs[1..], sep)
  }

  /** Appending one element to a join adds a separator and the element, unless the join was empty. */
  lemma {:induction false} JoinAppend(xs: seq<string>, x: string, sep: string)
    ensures Join(xs + [x], sep) == if xs == [] then x else Join(xs, sep) + sep + x
    decreases |xs|
  {
    if |xs| > 1 {
      assert (xs + [x])[1..] == xs[1..] + [x];
      JoinAppend(xs[1..], x, sep);
    } else if |xs| == 1 {
      assert (xs + [x])[1..] == [x];
    }
  }

  /** Every element followed by `sep`, as a Go loop doing `text += x + sep` builds it. */
  function Terminated(xs: seq<string>, sep: string): string
    decreases |xs|
  {
    if |xs| == 0 then "" else xs[0] + sep + Terminated(xs[1..], sep)
  }

  lemma {:induction false} TerminatedIsJoinThenSep(xs: seq<string>, sep: string)
    requires |xs| > 0
    ensures Terminated(xs, sep) == Join(xs, sep) + sep
    decreases |xs|
  {
    if |xs| > 1 {
      TerminatedIsJoinThenSep(xs[1..], sep);
    }
  }

  /** Appending one element extends the terminated text by that element and one separator. */
  lemma {:induction false} TerminatedAppend(xs: seq<string>, x: string, sep: string)
    ensures Terminated(xs + [x], sep) == Terminated(xs, sep) + x + sep
    decreases |xs|
  {
    if xs == [] {
      assert Terminated([x], sep) == x + sep + Terminated([], sep);
    } else {
      assert (xs + [x])[1..] == xs[1..] + [x];
      TerminatedAppend(xs[1..], x, sep);
    }
  }

  /** Dropping the last separator of a non-empty terminated text gives the join. */
  lemma StripLastSeparator(xs: seq<string>, sep: string)
    ensures |Terminated(xs, sep)| > 0 ==> |Terminated(xs, sep)| >= |sep|
    ensures (var t := Terminated(xs, sep);
             if |t| > 0 then t[..|t| - |sep|] == Join(xs, sep) else t == Join(xs, sep))
  {
    if |xs| > 0 {
      TerminatedIsJoinThenSep(xs, sep);
      var t := Terminated(xs, sep);
      if |t| > 0 {
        assert t[..|t| - |sep|] == Join(xs, sep);
      } else {
        assert Join(xs, sep) == [];
      }
    }
  }

  // ------------------------------------------------------------ splitting

  /** The first index of `c` in `s`, or -1. */
  function IndexOfChar(s: string, c: char): (r: int)
    ensures -1 <= r < |s|
    ensures r >= 0 ==> s[r] == c && forall k :: 0 <= k < r ==> s[k] != c
    ensures r < 0 ==> forall k :: 0 <= k < |s| ==> s[k] != c
    decreases |s|
  {
    if s == [] then -1
    else if s[0] == c then 0
    else
      var r := IndexOfChar(s[1..], c);
      if r < 0 then -1 else r + 1
  }

  /** `strings.Split` with a one-character separator. */
  function Split(s: string, c: char): (r: seq<string>)
    ensures |r| >= 1
    decreases |s|
  {
    var i := IndexOfChar(s, c);
    if i < 0 then [s] else [s[..i]] + Split(s[i + 1..], c)
  }

  /** A join of two or more pieces starts with the first piece and a separator. */
  lemma JoinCons(x: string, rest: seq<string>, sep: string)
    requires rest != []
    ensures Join([x] + rest, sep) == x + sep + Join(rest, sep)
  {
    assert ([x] + rest)[1..] == rest;
  }

  /** A split at a found separator takes the piece before it and splits the rest. */
  lemma SplitAtFirst(s: string, c: char)
    requires IndexOfChar(s, c) >= 0
    ensures var i := IndexOfChar(s, c);
      Split(s, c) == [s[..i]] + Split(s[i + 1..], c)
  {
  }

  /** A string is the part before a position, the character there, and the part after. */
  lemma AroundIndex(s: string, i: nat)
    requires i < |s|
    ensures s == s[..i] + [s[i]] + s[i + 1..]
  {
    assert s[i..] == [s[i]] + s[i + 1..];
    assert s == s[..i] + s[i..];
  }

  /** Joining the pieces of a split with the separator gives the string back. */
  lemma {:induction false} JoinSplit(s: string, c: char)
    ensures Join(Split(s, c), [c]) == s
    decreases |s|
  {
    var i := IndexOfChar(s, c);
    if i >= 0 {
      var head, tail := s[..i], s[i + 1..];
      SplitAtFirst(s, c);
      AroundIndex(s, i);
      JoinCons(head, Split(tail, c), [c]);
      JoinSplit(tail, c);
    }
  }

  /** The first `c` of `x c y` is the one after `x` when `x` holds none. */
  lemma IndexOfCharAfter(x: string, c: char, y: string)
    requires c !in x
    ensures IndexOfChar(x + [c] + y, c) == |x|
  {
    var s := x + [c] + y;
    assert s[|x|] == c;
    assert forall k :: 0 <= k < |x| ==> s[k] == x[k];
  }

  /** The parts on either side of the middle character of `x c y`. */
  lemma PartsAround(x: string, c: char, y: string)
    ensures (x + [c] + y)[..|x|] == x && (x + [c] + y)[|x| + 1..] == y
  {
  }

  /** Splitting a join of pieces free of the separator gives the pieces back. */
  lemma {:induction false} SplitJoin(xs: seq<string>, c: char)
    requires |xs| >= 1 && forall k :: 0 <= k < |xs| ==> c !in xs[k]
    ensures Split(Join(xs, [c]), c) == xs
    decreases |xs|
  {
    if |xs| == 1 {
      assert IndexOfChar(xs[0], c) < 0;
    } else {
      var x, tail := xs[0], xs[1..];
      var rest := Join(tail, [c]);
      assert xs == [x] + tail;
      JoinCons(x, tail, [c]);
      IndexOfCharAfter(x, c, rest);
      SplitAtFirst(x + [c] + rest, c);
      PartsAround(x, c, rest);
      SplitJoin(tail, c);
    }
  }

  /** The text before and after the first `c`, or None when `s` holds no `c`
      (`strings.SplitN(s, c, 2)` yielding two parts). */
  function CutAtChar(s: string, c: char): (r: Option<(string, string)>)
    ensures r.None? <==> c !in s
    ensures r.Some? ==> c !in r.value.0 && s == r.value.0 + [c] + r.value.1
  {
    var i := IndexOfChar(s, c);
    if i < 0 then None else Some((s[..i], s[i + 1..]))
  }

  // ------------------------------------------------------------- trimming

  function TrimLeft(s: string, c: char): (r: string)
    ensures r == [] || r[0] != c
    ensures |r| <= |s| && r == s[|s| - |r|..]
    decreases |s|
  {
    if s != [] && s[0] == c then TrimLeft(s[1..], c) else s
  }

  function TrimRight(s: string, c: char): (r: string)
    ensures r == [] || r[|r| - 1] != c
    ensures |r| <= |s| && r == s[..|r|]
    decreases |s|
  {
    if s != [] && s[|s| - 1] == c then TrimRight(s[..|s| - 1], c) else s
  }

  /** `strings.Trim(s, string(c))`: every leading and trailing `c` removed. */
  function Trim(s: string, c: char): (r: string)
    ensures r == [] || (r[0] != c && r[|r| - 1] != c)
    ensures |r| <= |s|
  {
    TrimRight(TrimLeft(s, c), c)
  }

  /** Trimming a string without `c` changes nothing. */
  lemma {:induction false} TrimAbsent(s: string, c: char)
    requires c !in s
    ensures Trim(s, c) == s
  {
    assert TrimLeft(s, c) == s;
    assert TrimRight(s, c) == s;
  }

  /** Cutting `k c v` at its first `c` gives back `k` and `v` when `k` holds no `c`. */
  lemma CutAtCharOfPair(k: string, c: char, v: string)
    requires c !in k
    ensures CutAtChar(k + [c] + v, c) == Some((k, v))
  {
    var s := k + [c] + v;
    assert s[|k|] == c && s[..|k|] == k && s[|k| + 1..] == v;
  }

  /** Trimming twice is trimming once. */
  lemma TrimIdempotent(s: string, c: char)
    ensures Trim(Trim(s, c), c) == Trim(s, c)
  {
  }

  // -------------------------------------------------------------- fields

  /** `unicode.IsSpace`: the white-space code points `strings.Fields` splits on. */
  predicate IsSpace(c: char) {
    var n := c as int;
    (0x09 <= n <= 0x0D) || n == 0x20 || n == 0x85 || n == 0xA0 || n == 0x1680
    || (0x2000 <= n <= 0x200A) || n == 0x2028 || n == 0x2029 || n == 0x202F
    || n == 0x205F || n == 0x3000
  }

  predicate NoSpace(w: string) {
    forall j :: 0 <= j < |w| ==> !IsSpace(w[j])
  }

  /** The length of the run of non-space characters that starts `s`. */
  function WordLength(s: string): (k: nat)
    ensures k <= |s|
    ensures forall j :: 0 <= j < k ==> !IsSpace(s[j])
    ensures k < |s| ==> IsSpace(s[k])
    decreases |s|
  {
    if s == [] || IsSpace(s[0]) then 0 else 1 + WordLength(s[1..])
  }

  /** `strings.Fields`: the maximal runs of non-space characters, in order. */
  function Fields(s: string): (r: seq<string>)
    ensures forall k :: 0 <= k < |r| ==> r[k] != [] && NoSpace(r[k])
    decreases |s|
  {
    if s == [] then []
    else if IsSpace(s[0]) then Fields(s[1..])
    else
      var k := WordLength(s);
      [s[..k]] + Fields(s[k..])
  }

  lemma {:induction false} WordLengthOfWord(w: string, t: string)
    requires NoSpace(w)
    requires t == [] || IsSpace(t[0])
    ensures WordLength(w + t) == |w|
    decreases |w|
  {
    if w != [] {
      assert (w + t)[1..] == w[1..] + t;
      WordLengthOfWord(w[1..], t);
    }
  }

  /** Fields undoes a single-space join of non-empty, space-free words. */
  lemma {:induction false} FieldsOfJoin(ws: seq<string>)
    requires forall k :: 0 <= k < |ws| ==> ws[k] != [] && NoSpace(ws[k])
    ensures Fields(Join(ws, " ")) == ws
    decreases |ws|
  {
    if |ws| == 1 {
      var w := ws[0];
      WordLengthOfWord(w, "");
      assert w + "" == w;
      assert w[..|w|] == w && w[|w|..] == [];
    } else if |ws| > 1 {
      var w := ws[0];
      var rest := Join(ws[1..], " ");
      var s := w + " " + rest;
      assert Join(ws, " ") == s;
      assert s == w + (" " + rest);
      WordLengthOfWord(w, " " + rest);
      assert s[..|w|] == w;
      assert s[|w|..] == " " + rest;
      assert (" " + rest)[1..] == rest;
      FieldsOfJoin(ws[1..]);
      assert Fields(s) == [w] + Fields(" " + rest);
      assert ws == [w] + ws[1..];
    }
  }

  // ------------------------------------------------------------- numbers

  predicate IsDigit(c: char) {
    '0' <= c <= '9'
  }

  predicate AllDigits(s: string) {
    forall i :: 0 <= i < |s| ==> IsDigit(s[i])
  }

  function DigitChar(d: nat): (c: char)
    requires d < 10
    ensures IsDigit(c) && c as int - '0' as int == d
  {
    ('0' as int + d) as char
  }

  /** `fmt`'s `%d` rendering of a natural number. */
  function NatToString(n: nat): (r: string)
    ensures |r| >= 1 && AllDigits(r)
    decreases n
  {
    if n < 10 then [DigitChar(n)] else NatToString(n / 10) + [DigitChar(n % 10)]
  }

  /** The value of a string of decimal digits. */
  function DecimalValue(s: string): nat
    requires AllDigits(s)
    decreases |s|
  {
    if s == [] then 0
    else 10 * DecimalValue(s[..|s| - 1]) + (s[|s| - 1] as int - '0' as int)
  }

  /** Reading back a rendered number gives the number. */
  lemma {:induction false} DecimalValueOfNatToString(n: nat)
    ensures DecimalValue(NatToString(n)) == n
    decreases n
  {
    var s := NatToString(n);
    if n >= 10 {
      DecimalValueOfNatToString(n / 10);
      assert s[..|s| - 1] == NatToString(n / 10);
    }
  }

  // ---------------------------------------------------------------- bytes

  /** The number of bytes UTF-8 takes for one code point. */
  function Utf8Width(c: char): (w: nat)
    ensures 1 <= w <= 4
    ensures w == 1 <==> c as int < 0x80
  {
    if c as int < 0x80 then 1
    else if c as int < 0x800 then 2
    else if c as int < 0x1_0000 then 3
    else 4
  }

  /** The length of the UTF-8 encoding of `s`: what Go's `len` counts. */
  function Utf8Length(s: string): nat
    decreases |s|
  {
    if s == [] then 0 else Utf8Length(s[..|s| - 1]) + Utf8Width(s[|s| - 1])
  }

  predicate IsAscii(s: string) {
    forall i :: 0 <= i < |s| ==> s[i] as int < 0x80
  }

  lemma {:induction false} Utf8LengthAppend(a: string, b: string)
    ensures Utf8Length(a + b) == Utf8Length(a) + Utf8Length(b)
    decreases |b|
  {
    if b == [] {
      assert a + b == a;
    } else {
      var init := b[..|b| - 1];
      assert (a + b)[..|a + b| - 1] == a + init;
      Utf8LengthAppend(a, init);
    }
  }

  /** Every code point takes one to four bytes, and exactly one byte each
      precisely when the text is ASCII. */
  lemma {:induction false} Utf8LengthBounds(s: string)
    ensures |s| <= Utf8Length(s) <= 4 * |s|
    ensures Utf8Length(s) == |s| <==> IsAscii(s)
    decreases |s|
  {
    if s != [] {
      var init := s[..|s| - 1];
      Utf8LengthBounds(init);
      if IsAscii(s) {
        assert IsAscii(init) by {
          forall i | 0 <= i < |init|
            ensures init[i] as int < 0x80
          {
            assert init[i] == s[i];
          }
        }
      } else if Utf8Width(s[|s| - 1]) == 1 {
        var k :| 0 <= k < |s| && s[k] as int >= 0x80;
        assert k < |init| && init[k] == s[k];
      }
    }
  }
}
