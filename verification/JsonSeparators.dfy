/** Rewriting the escapes of U+2028 and U+2029 in an encoded JSON text back into the
    characters themselves (strings: section 7 of RFC 8259). */
module JsonSeparators {
  import opened Common

  const BACKSLASH := '\\'
  const LINE := '\U{2028}'
  const PARAGRAPH := '\U{2029}'

  /** The five characters both escapes begin with. */
  predicate EscapeHead(s: string) {
    |s| >= 5 && s[0] == BACKSLASH && s[1] == 'u' && s[2] == '2' && s[3] == '0' && s[4] == '2'
  }

  predicate LineEscape(s: string) {
    |s| >= 6 && EscapeHead(s) && s[5] == '8'
  }

  predicate ParagraphEscape(s: string) {
    |s| >= 6 && EscapeHead(s) && s[5] == '9'
  }

  predicate IsEscape(s: string) {
    LineEscape(s) || ParagraphEscape(s)
  }

  // ---------------------------------------------------------------------
  // Token by token
  // ---------------------------------------------------------------------

  /** The first token: a backslash takes the character behind it along. */
  function TokenLength(s: string): (n: nat)
    requires s != ""
    ensures 1 <= n <= |s|
  {
    if IsEscape(s) then 6
    else if s[0] == BACKSLASH && |s| > 1 then 2
    else 1
  }

  /** What the first token becomes. */
  function Image(s: string): string
    requires s != ""
  {
    if LineEscape(s) then [LINE]
    else if ParagraphEscape(s) then [PARAGRAPH]
    else s[..TokenLength(s)]
  }

  /** The text with every real escape of either character replaced. */
  function Restored(s: string): string {
    if s == "" then "" else Image(s) + Restored(s[TokenLength(s)..])
  }

  /** The first n characters of s are rewritten to image, on their own. */
  predicate Splits(s: string, n: nat, image: string) {
    n <= |s| && Restored(s) == image + Restored(s[n..])
  }

  lemma Join(s: string, n: nat, a: string, m: nat, b: string)
    requires Splits(s, n, a) && Splits(s[n..], m, b)
    ensures Splits(s, n + m, a + b)
  {
    assert s[n..][m..] == s[n + m..];
    assert a + (b + Restored(s[n + m..])) == (a + b) + Restored(s[n + m..]);
  }

  lemma PlainToken(s: string)
    requires s != "" && s[0] != BACKSLASH
    ensures Splits(s, 1, s[..1]) && TokenLength(s) == 1
  {
  }

  lemma PairToken(s: string)
    requires |s| >= 2 && s[0] == BACKSLASH && !IsEscape(s)
    ensures Splits(s, 2, s[..2]) && TokenLength(s) == 2
  {
  }

  lemma EscapeToken(s: string)
    requires IsEscape(s)
    ensures Splits(s, 6, Image(s)) && |Image(s)| == 1
  {
  }

  // ---------------------------------------------------------------------
  // What a JSON string means
  // ---------------------------------------------------------------------

  function HexDigit(c: char): Option<int> {
    if '0' <= c <= '9' then Some(c as int - '0' as int)
    else if 'a' <= c <= 'f' then Some(c as int - 'a' as int + 10)
    else if 'A' <= c <= 'F' then Some(c as int - 'A' as int + 10)
    else None
  }

  /** The UTF-16 code unit that four hex digits name. */
  function HexUnit(s: string): Option<int>
    requires |s| >= 4
  {
    if HexDigit(s[0]).Some? && HexDigit(s[1]).Some? && HexDigit(s[2]).Some? && HexDigit(s[3]).Some? then
      Some(((HexDigit(s[0]).value * 16 + HexDigit(s[1]).value) * 16 + HexDigit(s[2]).value) * 16 + HexDigit(s[3]).value)
    else None
  }

  function ShortEscape(c: char): Option<int> {
    if c == '"' || c == BACKSLASH || c == '/' then Some(c as int)
    else if c == 'b' then Some(8)
    else if c == 'f' then Some(12)
    else if c == 'n' then Some(10)
    else if c == 'r' then Some(13)
    else if c == 't' then Some(9)
    else None
  }

  /** The code units of one unescaped character; quotes and control characters may not
      stand unescaped. */
  function Units(c: char): Option<seq<int>> {
    var code := c as int;
    if code < 0x20 || c == '"' then None
    else if code < 0x1_0000 then Some([code])
    else Some([0xD800 + (code - 0x1_0000) / 0x400, 0xDC00 + (code - 0x1_0000) % 0x400])
  }

  function Prepend(units: Option<seq<int>>, rest: Option<seq<int>>): Option<seq<int>> {
    if units.Some? && rest.Some? then Some(units.value + rest.value) else None
  }

  /** The value of the body of a JSON string as UTF-16 code units; None when it is not a
      well-formed body. */
  function Decoded(s: string): Option<seq<int>> {
    if s == "" then Some([])
    else if s[0] != BACKSLASH then Prepend(Units(s[0]), Decoded(s[1..]))
    else if |s| == 1 then None
    else if s[1] == 'u' then DecodedUnit(s[2..])
    else Prepend(if ShortEscape(s[1]).Some? then Some([ShortEscape(s[1]).value]) else None, Decoded(s[2..]))
  }

  /** The value of what follows a \u. */
  function DecodedUnit(t: string): Option<seq<int>> {
    if |t| >= 4 && HexUnit(t).Some? then Prepend(Some([HexUnit(t).value]), Decoded(t[4..])) else None
  }

  /** Position i stands behind an odd run of backslashes. */
  predicate Escaped(s: string, i: nat)
    requires i <= |s|
  {
    i > 0 && s[i - 1] == BACKSLASH && !Escaped(s, i - 1)
  }

  /** A real escape of one of the two characters starts at i. */
  predicate RealEscapeAt(s: string, i: nat) {
    i <= |s| && !Escaped(s, i) && IsEscape(s[i..])
  }

  // ---------------------------------------------------------------------
  // Plain characters stay in place
  // ---------------------------------------------------------------------

  predicate Plain(c: char) {
    c != BACKSLASH && c != LINE && c != PARAGRAPH
  }

  /** The first rewritten character is plain exactly when the first character was, and
      then they are the same. */
  lemma FirstPlain(s: string)
    ensures (s != "" && Plain(s[0])) <==> (Restored(s) != "" && Plain(Restored(s)[0]))
    ensures s != "" && Plain(s[0]) ==> Restored(s) == [s[0]] + Restored(s[1..])
  {
    if s != "" {
      if IsEscape(s) {
        EscapeToken(s);
      } else {
        assert s[..1] == [s[0]];
        assert Restored(s)[0] == s[0];
      }
    }
  }

  /** Four plain characters in front of one text are in front of the other. */
  lemma FourPlain(s: string)
    ensures (|s| >= 4 && Plain(s[0]) && Plain(s[1]) && Plain(s[2]) && Plain(s[3])) <==>
            (|Restored(s)| >= 4 && Plain(Restored(s)[0]) && Plain(Restored(s)[1]) && Plain(Restored(s)[2]) && Plain(Restored(s)[3]))
    ensures |s| >= 4 && Plain(s[0]) && Plain(s[1]) && Plain(s[2]) && Plain(s[3]) ==>
            Restored(s) == [s[0], s[1], s[2], s[3]] + Restored(s[4..])
  {
    FirstPlain(s);
    if s != "" && Plain(s[0]) {
      ThreePlain(s[1..]);
      assert |s| >= 4 ==> s[1..][3..] == s[4..];
    }
  }

  lemma ThreePlain(s: string)
    ensures (|s| >= 3 && Plain(s[0]) && Plain(s[1]) && Plain(s[2])) <==>
            (|Restored(s)| >= 3 && Plain(Restored(s)[0]) && Plain(Restored(s)[1]) && Plain(Restored(s)[2]))
    ensures |s| >= 3 && Plain(s[0]) && Plain(s[1]) && Plain(s[2]) ==> Restored(s) == [s[0], s[1], s[2]] + Restored(s[3..])
  {
    FirstPlain(s);
    if s != "" && Plain(s[0]) {
      TwoPlain(s[1..]);
      assert |s| >= 3 ==> s[1..][2..] == s[3..];
    }
  }

  lemma TwoPlain(s: string)
    ensures (|s| >= 2 && Plain(s[0]) && Plain(s[1])) <==> (|Restored(s)| >= 2 && Plain(Restored(s)[0]) && Plain(Restored(s)[1]))
    ensures |s| >= 2 && Plain(s[0]) && Plain(s[1]) ==> Restored(s) == [s[0], s[1]] + Restored(s[2..])
  {
    FirstPlain(s);
    if s != "" && Plain(s[0]) {
      FirstPlain(s[1..]);
      assert |s| >= 2 ==> s[1..][1..] == s[2..];
    }
  }

  lemma HexIsPlain(c: char)
    ensures HexDigit(c).Some? ==> Plain(c)
  {
  }

  /** The unit behind a \u is the same in both texts, and so is what follows it. */
  lemma SameUnit(t: string)
    ensures (|t| >= 4 && HexUnit(t).Some?) <==> (|Restored(t)| >= 4 && HexUnit(Restored(t)).Some?)
    ensures |t| >= 4 && HexUnit(t).Some? ==>
              HexUnit(Restored(t)) == HexUnit(t) && Restored(t)[4..] == Restored(t[4..])
  {
    FourPlain(t);
    forall c: char ensures HexDigit(c).Some? ==> Plain(c) {
      HexIsPlain(c);
    }
  }

  // ---------------------------------------------------------------------
  // The meaning is kept
  // ---------------------------------------------------------------------

  /** Rewriting keeps the decoded value of every JSON string, and makes no malformed one
      well-formed. */
  lemma {:induction false} ValueIsKept(s: string)
    ensures Decoded(Restored(s)) == Decoded(s)
    decreases |s|, 1
  {
    if s == "" {
    } else if IsEscape(s) {
      EscapeKeepsValue(s);
    } else if s[0] != BACKSLASH {
      PlainToken(s);
      ValueIsKept(s[1..]);
      DecodedCons(s[0], Restored(s[1..]));
      assert s[..1] == [s[0]];
    } else if |s| > 1 {
      PairToken(s);
      PairKeepsValue(s);
    }
  }

  lemma DecodedCons(c: char, rest: string)
    requires c != BACKSLASH
    ensures Decoded([c] + rest) == Prepend(Units(c), Decoded(rest))
  {
    assert ([c] + rest)[1..] == rest;
  }

  lemma EscapeKeepsValue(s: string)
    requires IsEscape(s)
    ensures Decoded(Restored(s)) == Decoded(s)
    decreases |s|, 0
  {
    EscapeToken(s);
    ValueIsKept(s[6..]);
    DecodedCons(Image(s)[0], Restored(s[6..]));
    assert [Image(s)[0]] == Image(s);
    EscapeUnit(s);
  }

  lemma EscapeUnit(s: string)
    requires IsEscape(s)
    ensures Decoded(s) == Prepend(Units(Image(s)[0]), Decoded(s[6..]))
  {
    assert s[2..][4..] == s[6..];
    assert HexUnit(s[2..]) == Some(if LineEscape(s) then 0x2028 else 0x2029);
  }

  lemma PairKeepsValue(s: string)
    requires |s| >= 2 && s[0] == BACKSLASH && Splits(s, 2, s[..2])
    ensures Decoded(Restored(s)) == Decoded(s)
    decreases |s|, 0
  {
    var r := Restored(s);
    assert r[0] == BACKSLASH && r[1] == s[1] && r[2..] == Restored(s[2..]);
    if s[1] == 'u' {
      UnitKeepsValue(s[2..]);
    } else {
      ValueIsKept(s[2..]);
    }
  }

  lemma UnitKeepsValue(t: string)
    ensures DecodedUnit(Restored(t)) == DecodedUnit(t)
    decreases |t|, 2
  {
    SameUnit(t);
    if |t| >= 4 {
      ValueIsKept(t[4..]);
    }
  }

  // ---------------------------------------------------------------------
  // Nothing is left over
  // ---------------------------------------------------------------------

  lemma {:induction false} EscapedBehind(head: string, rest: string, i: nat)
    requires i <= |rest| && !Escaped(head + rest, |head|)
    ensures Escaped(head + rest, |head| + i) == Escaped(rest, i)
    decreases i
  {
    if i > 0 {
      EscapedBehind(head, rest, i - 1);
      assert (head + rest)[|head| + i - 1] == rest[i - 1];
    }
  }

  lemma SuffixBehind(head: string, rest: string, i: nat)
    requires |head| <= i <= |head| + |rest|
    ensures (head + rest)[i..] == rest[i - |head|..]
  {
  }

  /** No real escape of either character is left in the rewritten text. */
  lemma {:induction false} NoRealEscapeLeft(s: string, i: nat)
    ensures !RealEscapeAt(Restored(s), i)
    decreases |s|, 1
  {
    if i <= |Restored(s)| && s != "" {
      if IsEscape(s) {
        EscapeToken(s);
        NotInHead(Image(s), s[6..], i);
      } else if s[0] != BACKSLASH {
        PlainToken(s);
        NotInHead(s[..1], s[1..], i);
      } else if |s| > 1 {
        PairToken(s);
        NotInPair(s, i);
      }
    }
  }

  lemma NotInHead(head: string, rest: string, i: nat)
    requires |head| == 1 && head[0] != BACKSLASH && i <= 1 + |Restored(rest)|
    ensures !RealEscapeAt(head + Restored(rest), i)
    decreases |rest|, 2
  {
    var r := head + Restored(rest);
    if i > 0 {
      assert !Escaped(r, 1);
      NoRealEscapeLeft(rest, i - 1);
      EscapedBehind(head, Restored(rest), i - 1);
      SuffixBehind(head, Restored(rest), i);
    } else {
      assert r[0..][0] == head[0];
    }
  }

  lemma NotInPair(s: string, i: nat)
    requires |s| >= 2 && s[0] == BACKSLASH && Splits(s, 2, s[..2]) && !IsEscape(s) && i <= |Restored(s)|
    ensures !RealEscapeAt(Restored(s), i)
    decreases |s|, 0
  {
    var rest := Restored(s[2..]);
    assert Escaped(Restored(s), 1);
    if i == 0 {
      NotAtStart(s);
    } else if i >= 2 {
      NoRealEscapeLeft(s[2..], i - 2);
      EscapedBehind(s[..2], rest, i - 2);
      SuffixBehind(s[..2], rest, i);
    }
  }

  /** An escape that starts the rewritten text would have started the text before. */
  lemma NotAtStart(s: string)
    requires |s| >= 2 && s[0] == BACKSLASH && Splits(s, 2, s[..2]) && !IsEscape(s)
    ensures !IsEscape(Restored(s)[0..])
  {
    var r := Restored(s);
    assert r[0..] == r && r[1] == s[1];
    FourPlain(s[2..]);
    assert r[2..] == Restored(s[2..]);
  }

  // ---------------------------------------------------------------------
  // The run-length scan
  // ---------------------------------------------------------------------

  predicate ContainsHead(s: string) {
    exists i :: 0 <= i <= |s| && EscapeHead(s[i..])
  }

  lemma {:induction false} NothingToRestore(s: string)
    requires !ContainsHead(s)
    ensures Restored(s) == s
    decreases |s|
  {
    if s != "" {
      assert s[0..] == s;
      assert !EscapeHead(s[0..]);
      StillNothing(s, TokenLength(s));
      NothingToRestore(s[TokenLength(s)..]);
      assert s == s[..TokenLength(s)] + s[TokenLength(s)..];
    }
  }

  lemma StillNothing(s: string, n: nat)
    requires n <= |s| && !ContainsHead(s)
    ensures !ContainsHead(s[n..])
  {
    forall i | 0 <= i <= |s[n..]| ensures !EscapeHead(s[n..][i..]) {
      assert s[n..][i..] == s[n + i..];
      assert !EscapeHead(s[n + i..]);
    }
  }

  /** Backslashes in pairs are escaped backslashes. */
  lemma {:induction false} PairsStay(s: string, m: nat)
    requires 2 * m <= |s| && forall i | 0 <= i < 2 * m :: s[i] == BACKSLASH
    ensures Splits(s, 2 * m, s[..2 * m])
  {
    if m == 0 {
      assert s[..0] == "" && s[0..] == s;
    } else {
      PairToken(s);
      PairsStay(s[2..], m - 1);
      Join(s, 2, s[..2], 2 * (m - 1), s[2..][..2 * (m - 1)]);
      assert s[..2 * m] == s[..2] + s[2..][..2 * (m - 1)];
    }
  }

  /** A run of backslashes, an odd last one set apart. */
  predicate Run(t: string, n: nat) {
    0 < n <= |t| && (forall i | 0 <= i < n :: t[i] == BACKSLASH) && (n < |t| ==> t[n] != BACKSLASH)
  }

  lemma EvenRun(t: string, n: nat)
    requires Run(t, n) && n % 2 == 0
    ensures Splits(t, n, t[..n])
  {
    PairsStay(t, n / 2);
    assert 2 * (n / 2) == n;
  }

  /** An odd run ends in an unescaped backslash, which may open a real escape. */
  lemma OddRunOpens(t: string, n: nat)
    requires Run(t, n) && n % 2 == 1 && IsEscape(t[n - 1..])
    ensures Splits(t, n + 5, t[..n - 1] + Image(t[n - 1..]))
  {
    PairsStay(t, (n - 1) / 2);
    assert 2 * ((n - 1) / 2) == n - 1;
    EscapeToken(t[n - 1..]);
    Join(t, n - 1, t[..n - 1], 6, Image(t[n - 1..]));
  }

  /** Otherwise it stays as it is, and leaves the character behind it to the next step. */
  lemma OddRunStays(t: string, n: nat)
    requires Run(t, n) && n % 2 == 1 && !IsEscape(t[n - 1..])
    ensures Splits(t, n, t[..n])
  {
    PairsStay(t, (n - 1) / 2);
    assert 2 * ((n - 1) / 2) == n - 1;
    LastOfRun(t[n - 1..]);
    OneMore(t, n - 1);
  }

  lemma OneMore(t: string, n: nat)
    requires n < |t| && Splits(t, n, t[..n]) && Splits(t[n..], 1, t[n..][..1])
    ensures Splits(t, n + 1, t[..n + 1])
  {
    Join(t, n, t[..n], 1, t[n..][..1]);
    assert t[..n + 1] == t[..n] + t[n..][..1];
  }

  lemma LastOfRun(t: string)
    requires t != "" && t[0] == BACKSLASH && (|t| > 1 ==> t[1] != BACKSLASH) && !IsEscape(t)
    ensures Splits(t, 1, t[..1])
  {
    if |t| > 1 {
      PairToken(t);
      PlainToken(t[1..]);
      assert t[1..][1..] == t[2..];
      assert t[..2] == t[..1] + t[1..][..1];
    }
  }

  /** One run of backslashes at the start of t, with the escape it may open: how far it
      goes and what is written for it. */
  method ScanRun(t: string) returns (n: nat, image: string)
    requires t != "" && t[0] == BACKSLASH
    ensures n > 0 && Splits(t, n, image)
  {
    var run := 0;
    while run < |t| && t[run] == BACKSLASH
      invariant 0 <= run <= |t| && forall i | 0 <= i < run :: t[i] == BACKSLASH
    {
      run := run + 1;
    }
    if run % 2 == 1 && LineEscape(t[run - 1..]) {
      OddRunOpens(t, run);
      return run + 5, t[..run - 1] + [LINE];
    }
    if run % 2 == 1 && ParagraphEscape(t[run - 1..]) {
      OddRunOpens(t, run);
      return run + 5, t[..run - 1] + [PARAGRAPH];
    }
    if run % 2 == 1 {
      OddRunStays(t, run);
    } else {
      EvenRun(t, run);
    }
    return run, t[..run];
  }

  /** One step of the scan. */
  method ScanStep(t: string) returns (n: nat, image: string)
    requires t != ""
    ensures n > 0 && Splits(t, n, image)
  {
    if t[0] != BACKSLASH {
      PlainToken(t);
      return 1, t[..1];
    }
    n, image := ScanRun(t);
  }

  /** restoreJSLineSeparators: counting backslash runs rewrites the text token by token. */
  method RestoreSeparators(encoded: string) returns (restored: string)
    ensures restored == Restored(encoded)
  {
    if !ContainsHead(encoded) {
      NothingToRestore(encoded);
      return encoded;
    }
    restored := ScanAll(encoded);
  }

  method ScanAll(encoded: string) returns (restored: string)
    ensures restored == Restored(encoded)
  {
    restored := "";
    var index := 0;
    assert encoded[0..] == encoded;
    while index < |encoded|
      invariant 0 <= index <= |encoded| && Splits(encoded, index, restored)
      decreases |encoded| - index
    {
      var n, image := ScanStep(encoded[index..]);
      Join(encoded, index, restored, n, image);
      restored := restored + image;
      index := index + n;
    }
  }
}
