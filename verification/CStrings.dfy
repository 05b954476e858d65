// The C string functions the proxy's parsers rest on, over a buffer whose valid bytes are
// followed by a NUL (proxy/connection_handler.c:120).
module CStrings {

  const CRLF: Pattern := "\r\n"

  // What a char* to the start of s sees: everything up to the first NUL.
  function CStr(s: string): string {
    if |s| == 0 || s[0] == '\0' then "" else [s[0]] + CStr(s[1..])
  }

  // Reading on only adds at the end of what a pointer sees.
  lemma {:induction false} CStrGrows(a: string, b: string)
    requires a <= b
    ensures CStr(a) <= CStr(b)
  {
    if |a| > 0 && a[0] != '\0' {
      CStrGrows(a[1..], b[1..]);
    }
  }

  lemma {:induction false} CStrIsPrefix(a: string)
    ensures CStr(a) <= a && '\0' !in CStr(a)
    ensures '\0' !in a ==> CStr(a) == a
  {
    if |a| > 0 && a[0] != '\0' {
      CStrIsPrefix(a[1..]);
    }
  }

  // Exactly up to the first NUL.
  lemma {:induction false} CStrIsCutAtNul(a: string, n: nat)
    requires n <= |a| && '\0' !in a[..n] && (n == |a| || a[n] == '\0')
    ensures CStr(a) == a[..n]
  {
    if n > 0 {
      assert a[..n][0] == a[0] && a[1..][..n - 1] == a[..n][1..];
      CStrIsCutAtNul(a[1..], n - 1);
    }
  }

  // ----- strstr -----

  // The separators in use have one or two characters.
  type Pattern = p: string | 1 <= |p| <= 2 witness " "

  predicate MatchAt(s: string, pat: Pattern, i: int) {
    0 <= i && i + |pat| <= |s| && s[i] == pat[0] && (|pat| == 2 ==> s[i + 1] == pat[1])
  }

  lemma MatchIsSlice(s: string, pat: Pattern, i: int)
    ensures MatchAt(s, pat, i) <==> 0 <= i && i + |pat| <= |s| && s[i..i + |pat|] == pat
  {
    if 0 <= i && i + |pat| <= |s| {
      assert s[i..i + |pat|][0] == s[i];
      if |pat| == 2 {
        assert s[i..i + 2][1] == s[i + 1];
      }
    }
  }

  // The index of the first occurrence at or after `from`, or -1.
  function Find(s: string, pat: Pattern, from: nat): (r: int)
    ensures r == -1 || (from <= r && MatchAt(s, pat, r))
    decreases |s| - from
  {
    if from + |pat| > |s| then -1 else if MatchAt(s, pat, from) then from else Find(s, pat, from + 1)
  }

  lemma {:induction false} FindIsFirst(s: string, pat: Pattern, from: nat, i: int)
    requires MatchAt(s, pat, i) && from <= i
    ensures from <= Find(s, pat, from) <= i
    decreases i - from
  {
    if !MatchAt(s, pat, from) {
      FindIsFirst(s, pat, from + 1, i);
    }
  }

  lemma MatchGrows(s: string, t: string, pat: Pattern, i: int)
    requires s <= t && 0 <= i && i + |pat| <= |s|
    ensures MatchAt(s, pat, i) <==> MatchAt(t, pat, i)
  {
  }

  // Whether there is a match below k depends only on the first k + |pat| - 1 characters.
  lemma FindGrows(s: string, t: string, pat: Pattern, from: nat, k: int)
    requires s <= t && k + |pat| <= |s| + 1
    ensures 0 <= Find(s, pat, from) < k <==> 0 <= Find(t, pat, from) < k
    ensures 0 <= Find(s, pat, from) < k ==> Find(t, pat, from) == Find(s, pat, from)
  {
    var i, j := Find(s, pat, from), Find(t, pat, from);
    if 0 <= i < k {
      MatchGrows(s, t, pat, i);
      FindIsFirst(t, pat, from, i);
    }
    if 0 <= j < k {
      MatchGrows(s, t, pat, j);
      FindIsFirst(s, pat, from, j);
    }
    if 0 <= i < k && 0 <= j < k {
      MatchGrows(s, t, pat, j);
    }
  }

  lemma FoundStaysFound(s: string, t: string, pat: Pattern, from: nat)
    requires s <= t && Find(s, pat, from) >= 0
    ensures Find(t, pat, from) == Find(s, pat, from)
  {
    FindGrows(s, t, pat, from, Find(s, pat, from) + 1);
  }

  // ----- Texts in a buffer -----

  function Concat(pieces: seq<string>): string {
    if |pieces| == 0 then "" else pieces[0] + Concat(pieces[1..])
  }

  // The text lies in the buffer at position pos.
  predicate Lies(text: string, buf: string, pos: nat) {
    pos + |text| <= |buf| && buf[pos..pos + |text|] == text
  }

  lemma LiesInParts(a: string, b: string, buf: string, pos: nat)
    requires Lies(a + b, buf, pos)
    ensures Lies(a, buf, pos) && Lies(b, buf, pos + |a|)
  {
    var t := buf[pos..pos + |a + b|];
    assert t[..|a|] == buf[pos..pos + |a|] && t[|a|..] == buf[pos + |a|..pos + |a| + |b|];
  }

  // ----- strtol -----

  predicate IsSpace(c: char) {
    c == ' ' || '\t' <= c <= '\r'
  }

  predicate IsHex(c: char) {
    '0' <= c <= '9' || 'a' <= c <= 'f' || 'A' <= c <= 'F'
  }

  function DigitValue(c: char): (d: nat)
    requires IsHex(c)
    ensures d < 16
  {
    if '0' <= c <= '9' then c as int - '0' as int
    else if 'a' <= c <= 'f' then c as int - 'a' as int + 10
    else c as int - 'A' as int + 10
  }

  predicate IsDigit(c: char, base: nat) {
    IsHex(c) && DigitValue(c) < base
  }

  // The value of acc followed by the leading digits of s.
  function Digits(s: string, base: nat, acc: nat): nat {
    if |s| == 0 || !IsDigit(s[0], base) then acc else Digits(s[1..], base, acc * base + DigitValue(s[0]))
  }

  function SkipSpace(s: string): string {
    if |s| > 0 && IsSpace(s[0]) then SkipSpace(s[1..]) else s
  }

  // The digits of a hexadecimal number, past an optional 0x.
  function HexDigits(s: string): nat {
    if |s| >= 3 && s[0] == '0' && (s[1] == 'x' || s[1] == 'X') && IsHex(s[2]) then Digits(s[2..], 16, 0) else Digits(s, 16, 0)
  }

  const LONG_MAX: int := 0x7FFF_FFFF_FFFF_FFFF

  function Clamp(v: int): int {
    if v > LONG_MAX then LONG_MAX else if v < -LONG_MAX - 1 then -LONG_MAX - 1 else v
  }

  // strtol(s, NULL, base) for the two bases in use.
  function Strtol(s: string, base: nat): int {
    var t := SkipSpace(s);
    var negative := |t| > 0 && t[0] == '-';
    var u := if |t| > 0 && (t[0] == '-' || t[0] == '+') then t[1..] else t;
    var v := if base == 16 then HexDigits(u) else Digits(u, base, 0);
    Clamp(if negative then -v else v)
  }
}
