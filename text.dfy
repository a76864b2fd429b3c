/** String and list helpers shared by the model: the parts of Python's `str`
    behaviour the system relies on (lower, strip, split, join, `in`,
    startswith), slicing a prefix and filtering a list. */
module Text {

  /** Python's `str.isspace()` characters: what `strip()` removes. */
  predicate IsSpace(c: char)
  {
    || ('\t' <= c <= '\r')
    || ('\U{1c}' <= c <= ' ')
    || c == '\U{85}' || c == '\U{a0}' || c == '\U{1680}'
    || ('\U{2000}' <= c <= '\U{200a}')
    || c == '\U{2028}' || c == '\U{2029}' || c == '\U{202f}' || c == '\U{205f}' || c == '\U{3000}'
  }

  /** Lower-casing of one character (ASCII letters only). */
  function LowerChar(c: char): (d: char)
    ensures 'A' <= c <= 'Z' ==> 'a' <= d <= 'z'
    ensures !('A' <= c <= 'Z') ==> d == c
  {
    if 'A' <= c <= 'Z' then (c as int - 'A' as int + 'a' as int) as char else c
  }

  /** `s.lower()` */
  function Lower(s: string): (t: string)
    ensures |t| == |s|
    ensures forall i :: 0 <= i < |s| ==> t[i] == LowerChar(s[i])
  {
    seq(|s|, i requires 0 <= i < |s| => LowerChar(s[i]))
  }

  /** Text without capitals is its own lower-case form. */
  lemma LowerOfLower(s: string)
    requires forall i :: 0 <= i < |s| ==> !('A' <= s[i] <= 'Z')
    ensures Lower(s) == s
  {
  }

  /** `sub` starts at position `i` of `s`. */
  predicate OccursAt(s: string, sub: string, i: int)
  {
    0 <= i <= |s| - |sub| && s[i..i + |sub|] == sub
  }

  /** `sub in s` for strings: `sub` occurs at some position of `s`. */
  predicate Contains(s: string, sub: string)
  {
    exists i | 0 <= i <= |s| - |sub| :: OccursAt(s, sub, i)
  }

  /** `sub` does not occur in a shorter string. */
  lemma TooLong(s: string, sub: string)
    requires |s| < |sub|
    ensures !Contains(s, sub)
  {
  }

  /** A witness position shows that `sub` occurs. */
  lemma OccursContains(s: string, sub: string, i: int)
    requires OccursAt(s, sub, i)
    ensures Contains(s, sub)
  {
  }

  /** `sub` does not occur when one of its characters is absent from `s`. */
  lemma MissingChar(s: string, sub: string, k: int)
    requires 0 <= k < |sub| && sub[k] !in s
    ensures !Contains(s, sub)
  {
  }

  /** A text that contains a word contains each prefix of that word:
      a keyword list holding both "internship" and "intern" is decided by "intern". */
  lemma ContainsPrefixOf(s: string, word: string, pre: string)
    requires pre <= word
    requires Contains(s, word)
    ensures Contains(s, pre)
  {
    var i :| 0 <= i <= |s| - |word| && OccursAt(s, word, i);
    assert |pre| <= |word|;
    assert s[i..i + |pre|] == s[i..i + |word|][..|pre|];
    assert OccursAt(s, pre, i);
  }

  /** `s.startswith(p)` */
  predicate StartsWith(s: string, p: string)
  {
    p <= s
  }

  /** Every character is whitespace. */
  predicate AllSpace(s: string)
  {
    forall i :: 0 <= i < |s| ==> IsSpace(s[i])
  }

  /** No whitespace at either end. */
  predicate Stripped(s: string)
  {
    s != [] ==> !IsSpace(s[0]) && !IsSpace(s[|s| - 1])
  }

  /** The first position at or after `i` that is not whitespace. */
  function LeftEdge(s: string, i: nat): (r: nat)
    requires i <= |s|
    ensures i <= r <= |s|
    ensures forall k :: i <= k < r ==> IsSpace(s[k])
    ensures r < |s| ==> !IsSpace(s[r])
    decreases |s| - i
  {
    if i < |s| && IsSpace(s[i]) then LeftEdge(s, i + 1) else i
  }

  /** The end of `s[lo..j]` once trailing whitespace is dropped. */
  function RightEdge(s: string, lo: nat, j: nat): (r: nat)
    requires lo <= j <= |s|
    ensures lo <= r <= j
    ensures forall k :: r <= k < j ==> IsSpace(s[k])
    ensures r > lo ==> !IsSpace(s[r - 1])
    decreases j
  {
    if j > lo && IsSpace(s[j - 1]) then RightEdge(s, lo, j - 1) else j
  }

  /** `t` is `s` with everything before `a` and from `b` on cut off, all of it whitespace. */
  predicate StripsTo(s: string, t: string, a: int, b: int)
  {
    && 0 <= a <= b <= |s| && t == s[a..b]
    && (forall k :: 0 <= k < a ==> IsSpace(s[k]))
    && (forall k :: b <= k < |s| ==> IsSpace(s[k]))
  }

  /** `s.strip()`: `s` without its leading and trailing whitespace. */
  function Strip(s: string): (t: string)
    ensures Stripped(t)
    ensures exists a, b :: StripsTo(s, t, a, b)
    ensures forall c :: c in t ==> c in s
    ensures t == [] <==> AllSpace(s)
  {
    var a := LeftEdge(s, 0);
    var b := RightEdge(s, a, |s|);
    assert StripsTo(s, s[a..b], a, b);
    assert b > a ==> s[a..b][0] == s[a];
    s[a..b]
  }

  /** Leading whitespace in front of a stripped, non-empty word is cut off. */
  lemma StripPaddedWord(pad: string, w: string)
    requires AllSpace(pad)
    requires w != [] && Stripped(w)
    ensures Strip(pad + w) == w
  {
    var s := pad + w;
    var a := LeftEdge(s, 0);
    assert s[|pad|] == w[0];
    assert forall k :: 0 <= k < |pad| ==> s[k] == pad[k];
    assert a == |pad|;
    var b := RightEdge(s, a, |s|);
    assert s[|s| - 1] == w[|w| - 1];
    assert b == |s|;
    assert s[a..b] == w;
  }

  /** Stripping a stripped string changes nothing. */
  lemma StripStripped(s: string)
    requires Stripped(s)
    ensures Strip(s) == s
  {
    if s != [] {
      StripPaddedWord([], s);
      assert [] + s == s;
    }
  }

  /** Number of occurrences of `c` in `s`. */
  function Count(s: string, c: char): nat
  {
    if s == [] then 0 else (if s[0] == c then 1 else 0) + Count(s[1..], c)
  }

  /** `s.split(sep)` for a one-character separator: the pieces between separators,
      one more piece than there are separators, none of them holding `sep`. */
  function Split(s: string, sep: char): (parts: seq<string>)
    ensures |parts| == Count(s, sep) + 1
    ensures forall p :: p in parts ==> sep !in p
  {
    if s == [] then [""]
    else
      var rest := Split(s[1..], sep);
      if s[0] == sep then [""] + rest
      else [[s[0]] + rest[0]] + rest[1..]
  }

  /** Every piece of a split is made of the characters of the text. */
  lemma {:induction false} SplitChars(s: string, sep: char)
    ensures forall p, c :: p in Split(s, sep) && c in p ==> c in s
    decreases |s|
  {
    if s != [] {
      SplitChars(s[1..], sep);
    }
  }

  /** A text without the separator is one piece. */
  lemma {:induction false} SplitNoSep(s: string, sep: char)
    requires sep !in s
    ensures Split(s, sep) == [s]
    decreases |s|
  {
    if s != [] {
      SplitNoSep(s[1..], sep);
      assert [s[0]] + s[1..] == s;
    }
  }

  /** The first separator ends the first piece. */
  lemma {:induction false} SplitAtSep(a: string, sep: char, b: string)
    requires sep !in a
    ensures Split(a + [sep] + b, sep) == [a] + Split(b, sep)
    decreases |a|
  {
    if a == [] {
      assert a + [sep] + b == [sep] + b;
      assert ([sep] + b)[1..] == b;
    } else {
      assert (a + [sep] + b)[1..] == a[1..] + [sep] + b;
      SplitAtSep(a[1..], sep, b);
      assert [a[0]] + a[1..] == a;
    }
  }

  /** `sep.join(parts)` */
  function Join(parts: seq<string>, sep: string): (s: string)
  {
    if parts == [] then ""
    else if |parts| == 1 then parts[0]
    else parts[0] + sep + Join(parts[1..], sep)
  }

  /** Keeps the stripped pieces that are not empty, in order. */
  function StripNonEmpty(parts: seq<string>): (r: seq<string>)
    ensures |r| <= |parts|
    ensures forall t :: t in r ==> t != [] && Stripped(t)
    ensures forall t, c :: t in r && c in t ==> exists p :: p in parts && c in p
  {
    if parts == [] then []
    else
      var t := Strip(parts[0]);
      var rest := StripNonEmpty(parts[1..]);
      if t == [] then rest
      else
        assert forall c :: c in t ==> c in parts[0];
        [t] + rest
  }

  /** `[t.strip() for t in s.split(',') if t.strip()]`: the comma-separated
      list idiom used for opportunity tags and profile skills. */
  function CommaList(s: string): (r: seq<string>)
    ensures |r| <= Count(s, ',') + 1
    ensures forall t :: t in r ==> t != [] && Stripped(t) && ',' !in t
  {
    var parts := Split(s, ',');
    var r := StripNonEmpty(parts);
    assert forall t, c :: t in r && c in t ==> exists p :: p in parts && c in p;
    r
  }

  /** Text without a comma is one piece: its stripped form, or nothing when it is blank. */
  lemma CommaListOnePiece(a: string)
    requires ',' !in a
    ensures CommaList(a) == if Strip(a) == [] then [] else [Strip(a)]
  {
    SplitNoSep(a, ',');
    StripNonEmptyCons(a, []);
  }

  /** The text before the first comma gives the first item, unless it is
      blank; the rest of the list comes from the text after that comma, in
      order. With `CommaListOnePiece` this pins down the list of any text. */
  lemma CommaListAtComma(a: string, b: string)
    requires ',' !in a
    ensures CommaList(a + [','] + b) == (if Strip(a) == [] then [] else [Strip(a)]) + CommaList(b)
  {
    SplitAtSep(a, ',', b);
    StripNonEmptyCons(a, Split(b, ','));
  }

  /** A list of commas and blanks holds no item. */
  lemma {:induction false} CommaListOfBlanks(s: string)
    requires forall c :: c in s ==> IsSpace(c) || c == ','
    ensures CommaList(s) == []
  {
    SplitChars(s, ',');
    BlankPiecesStripToNothing(Split(s, ','), s);
  }

  lemma {:induction false} BlankPiecesStripToNothing(parts: seq<string>, s: string)
    requires forall c :: c in s ==> IsSpace(c) || c == ','
    requires forall p, c :: p in parts && c in p ==> c in s
    requires forall p :: p in parts ==> ',' !in p
    ensures StripNonEmpty(parts) == []
    decreases |parts|
  {
    if parts != [] {
      var p := parts[0];
      assert p in parts;
      forall i | 0 <= i < |p| ensures IsSpace(p[i]) {
        var c := p[i];
        assert c in p;
        assert c in s;
        assert c != ',';
      }
      assert AllSpace(p);
      BlankPiecesStripToNothing(parts[1..], s);
    }
  }

  /** An item fit for a comma list: not empty, stripped, free of commas. */
  predicate ListItem(t: string)
  {
    t != [] && Stripped(t) && ',' !in t
  }

  /** Joining items with ", " and parsing the text back gives the items back. */
  lemma CommaListJoinRoundTrip(items: seq<string>)
    requires forall t :: t in items ==> ListItem(t)
    ensures CommaList(Join(items, ", ")) == items
  {
    if items == [] {
    } else {
      PaddedJoinRoundTrip("", items);
      assert "" + Join(items, ", ") == Join(items, ", ");
    }
  }

  lemma {:induction false} PaddedJoinRoundTrip(pad: string, items: seq<string>)
    requires items != []
    requires AllSpace(pad)
    requires forall t :: t in items ==> ListItem(t)
    ensures StripNonEmpty(Split(pad + Join(items, ", "), ',')) == items
    decreases |items|
  {
    var w := items[0];
    assert ListItem(w);
    assert ',' !in pad + w by { PadNoComma(pad, w); }
    assert Strip(pad + w) == w by { StripPaddedWord(pad, w); }
    if |items| == 1 {
      assert Split(pad + Join(items, ", "), ',') == [pad + w] by {
        SplitNoSep(pad + w, ',');
      }
      assert StripNonEmpty([pad + w]) == [w] by {
        StripNonEmptyCons(pad + w, []);
      }
    } else {
      var rest := Join(items[1..], ", ");
      assert Split(pad + Join(items, ", "), ',') == [pad + w] + Split(" " + rest, ',') by {
        JoinCons(pad, items);
        SplitAtSep(pad + w, ',', " " + rest);
      }
      assert StripNonEmpty(Split(" " + rest, ',')) == items[1..] by {
        assert forall t :: t in items[1..] ==> t in items;
        assert AllSpace(" ");
        PaddedJoinRoundTrip(" ", items[1..]);
      }
      assert StripNonEmpty([pad + w] + Split(" " + rest, ',')) == items by {
        StripNonEmptyCons(pad + w, Split(" " + rest, ','));
        assert items == [w] + items[1..];
      }
    }
  }

  lemma JoinCons(pad: string, items: seq<string>)
    requires |items| > 1
    ensures pad + Join(items, ", ") == (pad + items[0]) + [','] + (" " + Join(items[1..], ", "))
  {
    CommaSpaceSplit(pad, items[0], Join(items[1..], ", "));
  }

  lemma CommaSpaceSplit(pad: string, a: string, rest: string)
    ensures pad + (a + ", " + rest) == (pad + a) + [','] + (" " + rest)
  {
    var l, r := pad + (a + ", " + rest), (pad + a) + [','] + (" " + rest);
    assert |l| == |r|;
    forall k | 0 <= k < |l| ensures l[k] == r[k] {
      if k < |pad| + |a| {
      } else if k == |pad| + |a| {
      } else if k == |pad| + |a| + 1 {
      } else {
      }
    }
  }

  lemma StripNonEmptyCons(x: string, ps: seq<string>)
    ensures StripNonEmpty([x] + ps) == (if Strip(x) == [] then [] else [Strip(x)]) + StripNonEmpty(ps)
  {
    assert ([x] + ps)[0] == x;
    assert ([x] + ps)[1..] == ps;
  }

  lemma PadNoComma(pad: string, w: string)
    requires AllSpace(pad)
    requires ',' !in w
    ensures ',' !in pad + w
  {
    assert !IsSpace(',');
    forall i | 0 <= i < |pad + w| ensures (pad + w)[i] != ',' {
      if i < |pad| {
        assert IsSpace(pad[i]);
      } else {
        assert (pad + w)[i] == w[i - |pad|];
      }
    }
  }

  /** `s[:n]` */
  function Prefix<T>(s: seq<T>, n: nat): (r: seq<T>)
    ensures |r| == if n < |s| then n else |s|
    ensures r <= s
  {
    if n < |s| then s[..n] else s
  }

  /** `s[:n]` holds only elements of `s`, each no more often than `s` does,
      and all of `s` when it is shorter than `n`. */
  lemma PrefixMembers<T>(s: seq<T>, n: nat)
    ensures forall x :: x in Prefix(s, n) ==> x in s
    ensures multiset(Prefix(s, n)) <= multiset(s)
    ensures |Prefix(s, n)| < n ==> Prefix(s, n) == s
  {
    var r := Prefix(s, n);
    assert s == r + s[|r|..];
    forall x | x in r ensures x in s {
      var k :| 0 <= k < |r| && r[k] == x;
      assert s[k] == x;
    }
  }

  /** `[x for x in xs if keep(x)]`: the kept elements, in order. */
  function Filter<T(!new)>(xs: seq<T>, keep: T -> bool): (r: seq<T>)
    ensures |r| <= |xs|
    ensures forall x :: x in r <==> x in xs && keep(x)
  {
    if xs == [] then []
    else
      var init := Filter(xs[..|xs| - 1], keep);
      var x := xs[|xs| - 1];
      assert xs == xs[..|xs| - 1] + [x];
      if keep(x) then init + [x] else init
  }

  /** Filtering one more element. */
  lemma FilterSnoc<T(!new)>(xs: seq<T>, x: T, keep: T -> bool)
    ensures Filter(xs + [x], keep) == if keep(x) then Filter(xs, keep) + [x] else Filter(xs, keep)
  {
    assert (xs + [x])[..|xs|] == xs;
  }
}
