// proxy/connection_handler.c:356-391: the scanner for chunked bodies (section 4.1 of RFC 7230),
// resumed after every read.
module ChunkScanner {
  import opened CStrings
  import opened Numbers

  datatype Status = Scanning | LastChunk

  // sppos, chunk_size (-1: at a size line; otherwise the chunk's length plus its CRLF) and
  // chunk_read.
  datatype Scan = Scan(pos: nat, size: int, got: nat, status: Status)

  const SIZE_RANGE: int := 0x1_0000_0000_0000_0000
  const LONG_MIN: int := -LONG_MAX - 1

  // chunk_size is a long and chunk_read a size_t: what chunk_read is compared with.
  function Target(size: int): int {
    if size < 0 then size + SIZE_RANGE else size
  }

  // The sum of two longs that is too large by at most their range.
  function Wrapped(sum: int): int {
    if sum > LONG_MAX then sum - SIZE_RANGE else sum
  }

  predicate Consistent(buf: string, sc: Scan) {
    sc.pos <= |buf| && LONG_MIN <= sc.size && (sc.size == -1 || sc.got < Target(sc.size))
  }

  function Start(pos: nat): Scan {
    Scan(pos, -1, 0, Scanning)
  }

  // ----- The size line -----

  // chunk_size as the line sets it, and how far behind the line's start the chunk begins.
  datatype SizeLine = NoLine | Size(size: int, next: nat)

  predicate Blank(line: string) {
    forall i :: 0 <= i < |line| ==> IsSpace(line[i])
  }

  // What strstr and strtol find at a pointer that sees c.
  function ReadSizeLine(c: string): SizeLine {
    var crlf := Find(c, CRLF, 0);
    if crlf < 0 then NoLine else Size(Wrapped(Strtol(c, 16) + 2), crlf + 2)
  }

  function SizeLineAt(buf: string, pos: nat): SizeLine {
    if pos <= |buf| then ReadSizeLine(CStr(buf[pos..])) else NoLine
  }

  // The size lines that are not the same before and after the next read: a blank line that
  // strtol reads past to a number, and a line that sets chunk_size to -1, after which the
  // scanner passes over what has been read and looks for a size line in what has not.
  predicate CutMattersAt(buf: string, pos: nat) {
    var l := SizeLineAt(buf, pos);
    pos <= |buf| && l.Size? &&
    if Blank(CStr(buf[pos..])[..l.next - 2]) then l.size != 2 else l.size == -1 && pos + l.next < |buf|
  }

  // The loop is written for any size-line reader that stays in the buffer; what more input
  // makes of its lines is up to another predicate. SizeLineAt and CutMattersAt are a pair
  // (SizeLineIsBounded, SizeLineIsKept).
  type Reader = (string, nat) -> SizeLine
  type Tell = (string, nat) -> bool

  predicate EndsInside(buf: string, pos: nat, l: SizeLine) {
    l.Size? ==> 2 <= l.next && pos + l.next <= |buf| && LONG_MIN <= l.size
  }

  ghost predicate Bounded(reader: Reader) {
    forall buf: string, pos: nat :: EndsInside(buf, pos, reader(buf, pos))
  }

  // A line is found as soon as all of it is there. It stays the line it is as the buffer grows to
  // `more`, unless the cut matters; and where it has mattered it goes on to.
  predicate LineKept(reader: Reader, matters: Tell, buf: string, more: string, pos: nat) {
    var l, l' := reader(buf, pos), reader(more, pos);
    && (l.Size? ==> l'.Size? && l'.next == l.next)
    && (l'.Size? && pos + l'.next <= |buf| ==> l.Size?)
    && (l.Size? && !matters(more, pos) ==> l' == l)
    && (matters(buf, pos) ==> matters(more, pos))
    && (l'.Size? && l'.size == -1 && !matters(more, pos) ==> |more| <= pos + l'.next)
  }

  ghost predicate Kept(reader: Reader, matters: Tell) {
    forall buf: string, more: string, pos: nat :: buf <= more ==> LineKept(reader, matters, buf, more, pos)
  }

  // ----- The loop -----

  function ScanWith(reader: Reader, buf: string, sc: Scan): (r: Scan)
    requires Bounded(reader) && Consistent(buf, sc) && sc.status == Scanning
    ensures r.pos <= |buf| && sc.pos <= r.pos
    ensures r.status == Scanning ==> Consistent(buf, r)
    ensures r.status == LastChunk ==> r.size == r.got == 2
    decreases |buf| - sc.pos, if sc.size == -1 then 0 else 2
  {
    if sc.size == -1 then
      var l := reader(buf, sc.pos);
      assert EndsInside(buf, sc.pos, l);
      match l
      case NoLine => sc
      case Size(size, next) => Collect(reader, buf, Scan(sc.pos + next, size, 0, Scanning))
    else Collect(reader, buf, sc)
  }

  // A chunk of which at most all has been passed over.
  predicate Collectable(buf: string, sc: Scan) {
    sc.pos <= |buf| && LONG_MIN <= sc.size && sc.got <= Target(sc.size) && sc.status == Scanning
  }

  // The bytes of the chunk that are there.
  function Available(buf: string, sc: Scan): nat
    requires Collectable(buf, sc)
  {
    var left, available := Target(sc.size) - sc.got, |buf| - sc.pos;
    if left > available then available else left
  }

  // Lines 368-390: take what is there of the chunk; when it is complete, stop at the last
  // chunk or go on to the next.
  function Collect(reader: Reader, buf: string, sc: Scan): (r: Scan)
    requires Bounded(reader) && Collectable(buf, sc)
    ensures r.pos <= |buf| && sc.pos <= r.pos
    ensures r.status == Scanning ==> Consistent(buf, r)
    ensures r.status == LastChunk ==> r.size == r.got == 2
    decreases |buf| - sc.pos, 1
  {
    var ra := Available(buf, sc);
    if sc.got + ra < Target(sc.size) then Scan(sc.pos + ra, sc.size, sc.got + ra, Scanning)
    else if sc.size == 2 then Scan(sc.pos + ra, 2, 2, LastChunk)
    else ScanWith(reader, buf, Start(sc.pos + ra))
  }

  // ----- Read boundaries -----

  // On the way of the scanner no size line is one of those at which the cut matters.
  ghost predicate Settled(reader: Reader, matters: Tell, buf: string, sc: Scan)
    requires Bounded(reader) && Consistent(buf, sc) && sc.status == Scanning
    decreases |buf| - sc.pos, if sc.size == -1 then 0 else 2
  {
    if sc.size == -1 then
      var l := reader(buf, sc.pos);
      assert EndsInside(buf, sc.pos, l);
      l.Size? ==> !matters(buf, sc.pos) && CollectSettled(reader, matters, buf, Scan(sc.pos + l.next, l.size, 0, Scanning))
    else CollectSettled(reader, matters, buf, sc)
  }

  ghost predicate CollectSettled(reader: Reader, matters: Tell, buf: string, sc: Scan)
    requires Bounded(reader) && Collectable(buf, sc)
    decreases |buf| - sc.pos, 1
  {
    var ra := Available(buf, sc);
    sc.got + ra == Target(sc.size) && sc.size != 2 ==> Settled(reader, matters, buf, Start(sc.pos + ra))
  }

  // What is settled was settled when less had been read.
  lemma WasSettled(reader: Reader, matters: Tell, buf: string, more: string, sc: Scan)
    requires Bounded(reader) && Kept(reader, matters) && buf <= more && Consistent(buf, sc) && sc.status == Scanning
    requires Settled(reader, matters, more, sc)
    ensures Settled(reader, matters, buf, sc)
    decreases |buf| - sc.pos, if sc.size == -1 then 0 else 2
  {
    if sc.size == -1 {
      var l := reader(buf, sc.pos);
      assert EndsInside(buf, sc.pos, l) && LineKept(reader, matters, buf, more, sc.pos);
      if l.Size? {
        CollectWasSettled(reader, matters, buf, more, Scan(sc.pos + l.next, l.size, 0, Scanning));
      }
    } else {
      CollectWasSettled(reader, matters, buf, more, sc);
    }
  }

  lemma CollectWasSettled(reader: Reader, matters: Tell, buf: string, more: string, sc: Scan)
    requires Bounded(reader) && Kept(reader, matters) && buf <= more && Collectable(buf, sc)
    requires CollectSettled(reader, matters, more, sc)
    ensures CollectSettled(reader, matters, buf, sc)
    decreases |buf| - sc.pos, 1
  {
    if sc.got + Available(buf, sc) == Target(sc.size) && sc.size != 2 {
      WasSettled(reader, matters, buf, more, Start(sc.pos + Available(buf, sc)));
    }
  }

  lemma CollectResumes(reader: Reader, matters: Tell, buf: string, more: string, sc: Scan)
    requires Bounded(reader) && Kept(reader, matters) && buf <= more && Collectable(buf, sc)
    requires CollectSettled(reader, matters, more, sc) && (sc.size == -1 ==> |more| <= sc.pos)
    ensures var r := Collect(reader, buf, sc);
      Collect(reader, more, sc) == if r.status == Scanning then ScanWith(reader, more, r) else r
    decreases |buf| - sc.pos, 1
  {
    if sc.size == -1 {
      assert EndsInside(more, sc.pos, reader(more, sc.pos));
    }
    if sc.got + Available(buf, sc) == Target(sc.size) && sc.size != 2 {
      ScanResumes(reader, matters, buf, more, Start(sc.pos + Available(buf, sc)));
    }
  }

  // Stopping and resuming after more input is the same as having had it all along, if that is
  // settled; the end of the body, once found, stays where it is.
  lemma ScanResumes(reader: Reader, matters: Tell, buf: string, more: string, sc: Scan)
    requires Bounded(reader) && Kept(reader, matters) && buf <= more && Consistent(buf, sc) && sc.status == Scanning
    requires Settled(reader, matters, more, sc)
    ensures var r := ScanWith(reader, buf, sc);
      ScanWith(reader, more, sc) == if r.status == Scanning then ScanWith(reader, more, r) else r
    decreases |buf| - sc.pos, if sc.size == -1 then 0 else 2
  {
    if sc.size == -1 {
      var l := reader(buf, sc.pos);
      assert EndsInside(buf, sc.pos, l) && LineKept(reader, matters, buf, more, sc.pos);
      if l.Size? {
        CollectResumes(reader, matters, buf, more, Scan(sc.pos + l.next, l.size, 0, Scanning));
      }
    } else {
      CollectResumes(reader, matters, buf, more, sc);
    }
  }

  // ----- A cut that matters -----

  // Cut right behind a line at which the cut matters, the scanner is set on the last chunk, or
  // finds no more of a chunk that goes as far as the buffer.
  predicate CutShowsAt(reader: Reader, matters: Tell, text: string, pos: nat) {
    var l := reader(text, pos);
    matters(text, pos) ==>
      && l.Size? && pos + l.next < |text|
      && var l' := reader(text[..pos + l.next], pos);
         l'.Size? && l'.next == l.next && if l'.size == 2 then l.size != 2 else l'.size == -1 == l.size
  }

  ghost predicate CutShows(reader: Reader, matters: Tell) {
    forall text: string, pos: nat :: CutShowsAt(reader, matters, text, pos)
  }

  predicate SameResumed(reader: Reader, text: string, cut: nat, sc: Scan)
    requires Bounded(reader) && Consistent(text, sc) && sc.pos <= cut <= |text| && sc.status == Scanning
  {
    var r := ScanWith(reader, text[..cut], sc);
    ScanWith(reader, text, sc) == if r.status == Scanning then ScanWith(reader, text, r) else r
  }

  // The end of the body is at least two bytes behind where a chunk begins, and four behind
  // where a size line does.
  lemma EndIsFurther(reader: Reader, buf: string, sc: Scan)
    requires Bounded(reader) && Consistent(buf, sc) && sc.status == Scanning && sc.size == -1
    ensures var r := ScanWith(reader, buf, sc);
      if r.status == LastChunk then sc.pos + 4 <= r.pos else r == sc || sc.pos + 2 <= r.pos
    decreases |buf| - sc.pos, 0
  {
    var l := reader(buf, sc.pos);
    assert EndsInside(buf, sc.pos, l);
    if l.Size? {
      ChunkEndIsFurther(reader, buf, Scan(sc.pos + l.next, l.size, 0, Scanning));
    }
  }

  lemma ChunkEndIsFurther(reader: Reader, buf: string, sc: Scan)
    requires Bounded(reader) && Collectable(buf, sc) && sc.got == 0
    ensures var r := Collect(reader, buf, sc);
      r.status == LastChunk ==> sc.pos + (if sc.size == 2 then 2 else 4) <= r.pos
    decreases |buf| - sc.pos, 1
  {
    if Available(buf, sc) == Target(sc.size) && sc.size != 2 {
      EndIsFurther(reader, buf, Start(sc.pos + Available(buf, sc)));
    }
  }

  // A scanner that stops in a chunk of size -1 that began behind pos has not passed over all
  // that was there at pos.
  lemma RestIsLess(reader: Reader, buf: string, sc: Scan)
    requires Bounded(reader) && Consistent(buf, sc) && sc.status == Scanning && sc.size == -1
    ensures var r := ScanWith(reader, buf, sc); r.size == -1 ==> r == sc || r.got == 0 || sc.pos + 2 + r.got <= |buf|
    decreases |buf| - sc.pos, 0
  {
    var l := reader(buf, sc.pos);
    assert EndsInside(buf, sc.pos, l);
    if l.Size? {
      ChunkRestIsLess(reader, buf, Scan(sc.pos + l.next, l.size, 0, Scanning));
    }
  }

  lemma PartIsPassed(reader: Reader, buf: string, sc: Scan)
    requires Bounded(reader) && Collectable(buf, sc) && sc.got + Available(buf, sc) < Target(sc.size)
    ensures Collect(reader, buf, sc) == Scan(|buf|, sc.size, sc.got + |buf| - sc.pos, Scanning)
  {
  }

  lemma WholeIsPassed(reader: Reader, buf: string, sc: Scan)
    requires Bounded(reader) && Collectable(buf, sc) && sc.got + Available(buf, sc) == Target(sc.size) && sc.size != 2
    ensures sc.pos + Available(buf, sc) <= |buf| && Collect(reader, buf, sc) == ScanWith(reader, buf, Start(sc.pos + Available(buf, sc)))
  {
  }

  lemma ChunkRestIsLess(reader: Reader, buf: string, sc: Scan)
    requires Bounded(reader) && Collectable(buf, sc) && sc.got == 0
    ensures var r := Collect(reader, buf, sc); r.size == -1 ==> r.got == 0 || sc.pos + r.got <= |buf|
    decreases |buf| - sc.pos, 1
  {
    var ra := Available(buf, sc);
    if ra < Target(sc.size) {
      PartIsPassed(reader, buf, sc);
    } else if sc.size != 2 {
      WholeIsPassed(reader, buf, sc);
      RestIsLess(reader, buf, Start(sc.pos + ra));
    }
  }

  // Two bytes behind the line the body would be at its end.
  lemma CutAtLastShows(reader: Reader, text: string, cut: nat, size: int)
    requires Bounded(reader) && cut < |text| && LONG_MIN <= size != 2
    ensures Collect(reader, text, Scan(cut, size, 0, Scanning)) != ScanWith(reader, text, Scan(cut, 2, 0, Scanning))
  {
    var sc := Scan(cut, size, 0, Scanning);
    ChunkEndIsFurther(reader, text, sc);
    if Available(text, sc) == Target(size) {
      EndIsFurther(reader, text, Start(cut + Available(text, sc)));
    }
  }

  lemma CutInRestShows(reader: Reader, text: string, cut: nat)
    requires Bounded(reader) && cut < |text| < SIZE_RANGE - 1
    ensures Collect(reader, text, Scan(cut, -1, 0, Scanning)) != ScanWith(reader, text, Start(cut))
  {
    RestIsLess(reader, text, Start(cut));
  }

  lemma CutBehindLineShows(reader: Reader, matters: Tell, text: string, sc: Scan)
    requires Bounded(reader) && CutShowsAt(reader, matters, text, sc.pos) && matters(text, sc.pos)
    requires Consistent(text, sc) && sc.status == Scanning && sc.size == -1 && |text| < SIZE_RANGE - 1
    ensures !SameResumed(reader, text, sc.pos + reader(text, sc.pos).next, sc)
  {
    var l := reader(text, sc.pos);
    var cut := sc.pos + l.next;
    var l' := reader(text[..cut], sc.pos);
    assert ScanWith(reader, text[..cut], sc) == Scan(cut, l'.size, 0, Scanning);
    if l'.size == 2 {
      CutAtLastShows(reader, text, cut, l.size);
    } else {
      CutInRestShows(reader, text, cut);
    }
  }

  // If the scanner comes past a line at which the cut matters, a cut behind the first of them
  // shows.
  lemma UnsettledShows(reader: Reader, matters: Tell, text: string, sc: Scan) returns (cut: nat)
    requires Bounded(reader) && Kept(reader, matters) && CutShows(reader, matters)
    requires Consistent(text, sc) && sc.status == Scanning && |text| < SIZE_RANGE - 1
    requires !Settled(reader, matters, text, sc)
    ensures sc.pos <= cut <= |text| && !SameResumed(reader, text, cut, sc)
    decreases |text| - sc.pos, if sc.size == -1 then 0 else 2
  {
    if sc.size == -1 {
      var l := reader(text, sc.pos);
      assert EndsInside(text, sc.pos, l);
      if matters(text, sc.pos) {
        assert CutShowsAt(reader, matters, text, sc.pos);
        CutBehindLineShows(reader, matters, text, sc);
        cut := sc.pos + l.next;
      } else {
        cut := UnsettledChunkShows(reader, matters, text, Scan(sc.pos + l.next, l.size, 0, Scanning));
        assert LineKept(reader, matters, text[..cut], text, sc.pos);
      }
    } else {
      cut := UnsettledChunkShows(reader, matters, text, sc);
    }
  }

  lemma UnsettledChunkShows(reader: Reader, matters: Tell, text: string, sc: Scan) returns (cut: nat)
    requires Bounded(reader) && Kept(reader, matters) && CutShows(reader, matters)
    requires Collectable(text, sc) && |text| < SIZE_RANGE - 1
    requires !CollectSettled(reader, matters, text, sc)
    ensures sc.pos <= cut <= |text|
    ensures var r := Collect(reader, text[..cut], sc);
      Collect(reader, text, sc) != if r.status == Scanning then ScanWith(reader, text, r) else r
    decreases |text| - sc.pos, 1
  {
    cut := UnsettledShows(reader, matters, text, Start(sc.pos + Available(text, sc)));
  }

  // ----- The two facts about strtol -----

  lemma SizeLineIsBounded()
    ensures Bounded(SizeLineAt)
  {
    forall buf: string, pos: nat ensures EndsInside(buf, pos, SizeLineAt(buf, pos)) {
      if pos <= |buf| {
        CStrIsPrefix(buf[pos..]);
      }
    }
  }

  // The value of a number depends only on what comes before its end.
  lemma {:induction false} DigitsGrow(c: string, d: string, base: nat, acc: nat, i: nat)
    requires c <= d && i < |c| && !IsDigit(c[i], base)
    ensures Digits(d, base, acc) == Digits(c, base, acc)
  {
    if IsDigit(c[0], base) {
      DigitsGrow(c[1..], d[1..], base, acc * base + DigitValue(c[0]), i - 1);
    }
  }

  // What is before a CR decides a hexadecimal number.
  lemma HexDigitsGrow(c: string, d: string, cr: nat)
    requires c <= d && cr < |c| && c[cr] == '\r'
    ensures HexDigits(d) == HexDigits(c)
  {
    DigitsGrow(c, d, 16, 0, cr);
    if c[0] == '0' && cr >= 3 && (c[1] == 'x' || c[1] == 'X') && IsHex(c[2]) {
      DigitsGrow(c[2..], d[2..], 16, 0, cr - 2);
    }
  }

  // White space is skipped as far as something else.
  lemma {:induction false} SkipSpaceGrows(c: string, d: string, k: nat) returns (i: nat)
    requires c <= d && k < |c| && !IsSpace(c[k])
    ensures i <= k && SkipSpace(c) == c[i..] && SkipSpace(d) == d[i..]
  {
    if IsSpace(c[0]) {
      i := SkipSpaceGrows(c[1..], d[1..], k - 1);
      assert c[1..][i..] == c[i + 1..] && d[1..][i..] == d[i + 1..];
      i := i + 1;
    } else {
      i := 0;
    }
  }

  lemma StrtolGrows(c: string, d: string, k: nat, cr: nat)
    requires c <= d && k < cr < |c| && !IsSpace(c[k]) && c[cr] == '\r'
    ensures Strtol(d, 16) == Strtol(c, 16)
  {
    var i := SkipSpaceGrows(c, d, k);
    var t, t' := c[i..], d[i..];
    if t[0] == '-' || t[0] == '+' {
      HexDigitsGrow(t[1..], t'[1..], cr - i - 1);
    } else {
      HexDigitsGrow(t, t', cr - i);
    }
  }

  // More digits make no smaller number.
  lemma {:induction false} DigitsAdd(c: string, d: string, acc: nat)
    requires c <= d
    ensures acc <= Digits(c, 16, acc) <= Digits(d, 16, acc)
    decreases |d|
  {
    if |d| > 0 && IsDigit(d[0], 16) {
      var acc' := acc * 16 + DigitValue(d[0]);
      if |c| > 0 {
        DigitsAdd(c[1..], d[1..], acc');
      } else {
        DigitsAdd(d[1..], d[1..], acc');
      }
    }
  }

  lemma NoHexDigitsBefore(c: string, d: string)
    requires c <= d && HexDigits(d) == 0
    ensures HexDigits(c) == 0
  {
    if |d| >= 3 && d[0] == '0' && (d[1] == 'x' || d[1] == 'X') && IsHex(d[2]) {
      if |c| >= 3 {
        DigitsAdd(c[2..], d[2..], 0);
      } else if |c| > 0 {
        assert |c| == 2 ==> c[1..][0] == d[1] && !IsHex(d[1]);
        assert Digits(c, 16, 0) == Digits(c[1..], 16, 0);
      }
    } else {
      DigitsAdd(c, d, 0);
    }
  }

  lemma {:induction false} SkippedIsPrefix(c: string, d: string)
    requires c <= d
    ensures SkipSpace(c) <= SkipSpace(d)
  {
    if |c| > 0 && IsSpace(c[0]) {
      SkippedIsPrefix(c[1..], d[1..]);
    }
  }

  // What strtol reads as 0 it has read as 0 before.
  lemma ZeroBefore(c: string, d: string)
    requires c <= d && Strtol(d, 16) == 0
    ensures Strtol(c, 16) == 0
  {
    SkippedIsPrefix(c, d);
    var t, t' := SkipSpace(c), SkipSpace(d);
    if |t| > 0 && (t[0] == '-' || t[0] == '+') {
      NoHexDigitsBefore(t[1..], t'[1..]);
    } else if |t| > 0 {
      NoHexDigitsBefore(t, t');
    }
  }

  lemma FoundOnceThere(c: string, d: string)
    requires c <= d && Find(d, CRLF, 0) >= 0 && Find(d, CRLF, 0) + 2 <= |c|
    ensures Find(c, CRLF, 0) == Find(d, CRLF, 0)
  {
    FindGrows(c, d, CRLF, 0, Find(d, CRLF, 0) + 1);
  }

  lemma {:induction false} SeesAsFar(a: string, b: string, n: nat)
    requires a <= b && n <= |a| && n <= |CStr(b)|
    ensures n <= |CStr(a)|
  {
    if n > 0 {
      SeesAsFar(a[1..], b[1..], n - 1);
    }
  }

  lemma LineGrows(c: string, d: string)
    requires c <= d && ReadSizeLine(c).Size?
    ensures var l, l' := ReadSizeLine(c), ReadSizeLine(d);
      && l'.Size? && l'.next == l.next && c[..l.next - 2] == d[..l.next - 2]
      && (if Blank(c[..l.next - 2]) then l'.size == 2 ==> l.size == 2 else l'.size == l.size)
  {
    var crlf := Find(c, CRLF, 0);
    FoundStaysFound(c, d, CRLF, 0);
    assert c[..crlf] == d[..crlf];
    if Blank(c[..crlf]) {
      if Strtol(d, 16) == 0 {
        ZeroBefore(c, d);
      }
    } else {
      var k :| 0 <= k < crlf && !IsSpace(c[..crlf][k]);
      StrtolGrows(c, d, k, crlf);
    }
  }

  lemma FoundLineKept(buf: string, more: string, pos: nat)
    requires buf <= more && pos <= |buf| && SizeLineAt(buf, pos).Size?
    ensures LineKept(SizeLineAt, CutMattersAt, buf, more, pos)
  {
    var c, d := CStr(buf[pos..]), CStr(more[pos..]);
    CStrGrows(buf[pos..], more[pos..]);
    CStrIsPrefix(buf[pos..]);
    LineGrows(c, d);
  }

  lemma UnfoundLineKept(buf: string, more: string, pos: nat)
    requires buf <= more && pos <= |buf| && SizeLineAt(buf, pos).NoLine?
    ensures LineKept(SizeLineAt, CutMattersAt, buf, more, pos)
  {
    var d := CStr(more[pos..]);
    CStrIsPrefix(more[pos..]);
    if ReadSizeLine(d).Size? && pos + ReadSizeLine(d).next <= |buf| {
      CStrGrows(buf[pos..], more[pos..]);
      SeesAsFar(buf[pos..], more[pos..], ReadSizeLine(d).next);
      FoundOnceThere(CStr(buf[pos..]), d);
    }
  }

  lemma SizeLineKept(buf: string, more: string, pos: nat)
    requires buf <= more
    ensures LineKept(SizeLineAt, CutMattersAt, buf, more, pos)
  {
    if pos <= |buf| {
      if SizeLineAt(buf, pos).Size? {
        FoundLineKept(buf, more, pos);
      } else {
        UnfoundLineKept(buf, more, pos);
      }
    } else if pos <= |more| {
      CStrIsPrefix(more[pos..]);
    }
  }

  lemma SizeLineIsKept()
    ensures Kept(SizeLineAt, CutMattersAt)
  {
    forall buf: string, more: string, pos: nat | buf <= more ensures LineKept(SizeLineAt, CutMattersAt, buf, more, pos) {
      SizeLineKept(buf, more, pos);
    }
  }

  lemma {:induction false} BlankIsSkipped(line: string, more: string)
    requires Blank(line)
    ensures SkipSpace(line + more) == SkipSpace(more)
  {
    if line == "" {
      assert line + more == more;
    } else {
      assert (line + more)[1..] == line[1..] + more;
      assert (line + more)[0] == line[0];
      BlankIsSkipped(line[1..], more);
    }
  }

  lemma AllBlankIsZero(line: string)
    requires Blank(line)
    ensures Strtol(line, 16) == 0
  {
    BlankIsSkipped(line, "");
    assert line + "" == line;
  }

  lemma LineAloneSeen(c: string, d: string)
    requires c <= d && ReadSizeLine(d).Size? && |c| == ReadSizeLine(d).next
    ensures var l, l' := ReadSizeLine(d), ReadSizeLine(c);
      l'.Size? && l'.next == l.next && if Blank(d[..l.next - 2]) then l'.size == 2 else l'.size == l.size
  {
    FoundOnceThere(c, d);
    LineGrows(c, d);
    if Blank(c[..|c| - 2]) {
      assert Blank(c);
      AllBlankIsZero(c);
    }
  }

  // The line without what follows it.
  lemma LineAlone(a: string, b: string)
    requires a <= b && ReadSizeLine(CStr(b)).Size? && |a| == ReadSizeLine(CStr(b)).next
    ensures var l, l' := ReadSizeLine(CStr(b)), ReadSizeLine(CStr(a));
      && l'.Size? && l'.next == l.next && (a == b ==> l' == l)
      && if Blank(CStr(b)[..l.next - 2]) then l'.size == 2 else l'.size == l.size
  {
    CStrGrows(a, b);
    CStrIsPrefix(a);
    SeesAsFar(a, b, |a|);
    LineAloneSeen(CStr(a), CStr(b));
  }

  lemma CutsShow()
    ensures CutShows(SizeLineAt, CutMattersAt)
  {
    forall text: string, pos: nat ensures CutShowsAt(SizeLineAt, CutMattersAt, text, pos) {
      if CutMattersAt(text, pos) {
        SizeLineIsBounded();
        assert EndsInside(text, pos, SizeLineAt(text, pos));
        LineAlone(text[..pos + SizeLineAt(text, pos).next][pos..], text[pos..]);
      }
    }
  }

  // ----- The scanner on the buffer -----

  function Resume(buf: string, sc: Scan): (r: Scan)
    requires Consistent(buf, sc) && sc.status == Scanning
    ensures r.pos <= |buf| && sc.pos <= r.pos
    ensures r.status == Scanning ==> Consistent(buf, r)
  {
    SizeLineIsBounded();
    ScanWith(SizeLineAt, buf, sc)
  }

  ghost predicate SettledFrom(buf: string, sc: Scan)
    requires Consistent(buf, sc) && sc.status == Scanning
  {
    SizeLineIsBounded();
    Settled(SizeLineAt, CutMattersAt, buf, sc)
  }

  lemma Resumes(buf: string, more: string, sc: Scan)
    requires buf <= more && Consistent(buf, sc) && sc.status == Scanning && SettledFrom(more, sc)
    ensures var r := Resume(buf, sc);
      Resume(more, sc) == if r.status == Scanning then Resume(more, r) else r
    ensures SettledFrom(buf, sc)
  {
    SizeLineIsBounded();
    SizeLineIsKept();
    ScanResumes(SizeLineAt, CutMattersAt, buf, more, sc);
    WasSettled(SizeLineAt, CutMattersAt, buf, more, sc);
  }

  // Scanning after each of several reads, until the end is found.
  function ScanAll(buf: string, sc: Scan, pieces: seq<string>): Scan
    requires sc.status == Scanning ==> Consistent(buf, sc)
    decreases |pieces|
  {
    if |pieces| == 0 || sc.status != Scanning then sc
    else
      ScanAll(buf + pieces[0], Resume(buf + pieces[0], sc), pieces[1..])
  }

  lemma {:induction false} SettledReadsDoNotMatter(buf: string, start: nat, pieces: seq<string>)
    requires start <= |buf| && SettledFrom(buf + Concat(pieces), Start(start))
    ensures ScanAll(buf, Resume(buf, Start(start)), pieces) == Resume(buf + Concat(pieces), Start(start))
    decreases |pieces|
  {
    if |pieces| == 0 {
      assert buf + Concat(pieces) == buf;
    } else {
      var buf' := buf + pieces[0];
      assert buf + Concat(pieces) == buf' + Concat(pieces[1..]);
      Resumes(buf, buf + Concat(pieces), Start(start));
      Resumes(buf', buf + Concat(pieces), Start(start));
      Resumes(buf, buf', Start(start));
      if Resume(buf, Start(start)).status == Scanning {
        SettledReadsDoNotMatter(buf', start, pieces[1..]);
      }
    }
  }

  // Read in these pieces, from start on, the text is scanned as it is at once.
  predicate ScannedAlike(text: string, start: nat, pieces: seq<string>)
    requires start <= |text|
  {
    ScanAll(text[..start], Start(start), pieces) == Resume(text, Start(start))
  }

  lemma NothingToScan(text: string, start: nat)
    requires start <= |text|
    ensures Resume(text[..start], Start(start)) == Start(start)
  {
    SizeLineIsBounded();
    assert EndsInside(text[..start], start, SizeLineAt(text[..start], start));
  }

  lemma TwoReads(text: string, start: nat, cut: nat)
    requires start <= cut <= |text|
    ensures var r := Resume(text[..cut], Start(start));
      ScanAll(text[..start], Start(start), [text[start..cut], text[cut..]]) == if r.status == Scanning then Resume(text, r) else r
  {
    var pieces := [text[start..cut], text[cut..]];
    assert text[..start] + text[start..cut] == text[..cut] && text[..cut] + text[cut..] == text;
    var r := Resume(text[..cut], Start(start));
    if r.status == Scanning {
      assert [text[cut..]][1..] == [];
      assert ScanAll(text[..cut], r, [text[cut..]]) == Resume(text, r);
    }
    assert pieces[1..] == [text[cut..]];
    assert ScanAll(text[..start], Start(start), pieces) == ScanAll(text[..cut], r, [text[cut..]]);
  }

  lemma UnsettledReadsMatter(text: string, start: nat) returns (pieces: seq<string>)
    requires start <= |text| < SIZE_RANGE - 1 && !SettledFrom(text, Start(start))
    ensures Concat(pieces) == text[start..] && !ScannedAlike(text, start, pieces)
  {
    SizeLineIsBounded();
    SizeLineIsKept();
    CutsShow();
    var cut := UnsettledShows(SizeLineAt, CutMattersAt, text, Start(start));
    pieces := [text[start..cut], text[cut..]];
    TwoReads(text, start, cut);
    assert Concat([text[cut..]]) == text[cut..] + "" == text[cut..];
    assert Concat(pieces) == text[start..cut] + Concat([text[cut..]]) == text[start..];
    assert !SameResumed(SizeLineAt, text, cut, Start(start));
  }

  // However a body is cut into reads, the scanner ends in the state of scanning it at once,
  // exactly if that passes no size line at which the cut matters.
  lemma ReadsDoNotMatterIff(text: string, start: nat)
    requires start <= |text| < SIZE_RANGE - 1
    ensures (forall pieces :: Concat(pieces) == text[start..] ==> ScannedAlike(text, start, pieces))
      <==> SettledFrom(text, Start(start))
  {
    if SettledFrom(text, Start(start)) {
      forall pieces | Concat(pieces) == text[start..] ensures ScannedAlike(text, start, pieces) {
        assert text[..start] + Concat(pieces) == text;
        SettledReadsDoNotMatter(text[..start], start, pieces);
        NothingToScan(text, start);
      }
    } else {
      var pieces := UnsettledReadsMatter(text, start);
    }
  }

  // ----- Encoded bodies -----

  // A chunk as sent: its size line (extensions and white space included) and its data.
  datatype Chunk = Chunk(line: string, data: string)

  ghost predicate GoodSizeLine(line: string, size: nat) {
    && !Blank(line) && '\0' !in line
    && (forall i :: !MatchAt(line, CRLF, i))
    && Strtol(line + CRLF, 16) == size <= LONG_MAX - 2
  }

  // Which lines are size lines for which sizes.
  type SizeRule = (string, nat) -> bool

  ghost predicate ChunksBy(good: SizeRule, chunks: seq<Chunk>) {
    |chunks| > 0 ==> |chunks[0].data| > 0 && good(chunks[0].line, |chunks[0].data|) && ChunksBy(good, chunks[1..])
  }

  ghost predicate GoodChunks(chunks: seq<Chunk>) {
    ChunksBy(GoodSizeLine, chunks)
  }

  // The chunks, the last chunk, and the blank line for no trailers.
  function Encode(chunks: seq<Chunk>, last: string): string {
    if |chunks| == 0 then (last + CRLF) + CRLF
    else (chunks[0].line + CRLF) + (chunks[0].data + CRLF) + Encode(chunks[1..], last)
  }

  // A good size line, wherever it lies, is read as its size.
  lemma GoodSizeLineIsRead(line: string, size: nat, buf: string, pos: nat)
    requires GoodSizeLine(line, size) && Lies(line + CRLF, buf, pos)
    ensures SizeLineAt(buf, pos) == Size(size + 2, |line| + 2) && !CutMattersAt(buf, pos)
  {
    var text := line + CRLF;
    assert buf[pos..][..|text|] == text;
    CStrIsPrefix(text);
    CStrGrows(text, buf[pos..]);
    CleanLineEnds(line);
    assert text[..|line|] == line;
    LineGrows(text, CStr(buf[pos..]));
  }

  lemma CleanLineEnds(line: string)
    requires forall i :: !MatchAt(line, CRLF, i)
    ensures Find(line + CRLF, CRLF, 0) == |line|
  {
    var s := line + CRLF;
    assert MatchAt(s, CRLF, |line|);
    FindIsFirst(s, CRLF, 0, |line|);
    var i := Find(s, CRLF, 0);
    assert !MatchAt(line, CRLF, i);
  }

  // From pos on the reader meets chunks with this much data, and the body ends at end.
  ghost predicate Meets(reader: Reader, matters: Tell, buf: string, pos: nat, chunks: seq<Chunk>, end: nat)
    decreases |chunks|
  {
    var l := reader(buf, pos);
    && l.Size? && !matters(buf, pos)
    && if |chunks| == 0 then l.size == 2 && end == pos + l.next + 2 <= |buf|
       else l.size == |chunks[0].data| + 2 > 2 && pos + l.next + l.size <= |buf|
            && Meets(reader, matters, buf, pos + l.next + l.size, chunks[1..], end)
  }

  // The reader reads those lines as those sizes, wherever they lie.
  ghost predicate Follows(reader: Reader, matters: Tell, good: SizeRule) {
    forall line: string, size: nat, buf: string, pos: nat ::
      good(line, size) && Lies(line + CRLF, buf, pos) ==> reader(buf, pos) == Size(size + 2, |line| + 2) && !matters(buf, pos)
  }

  lemma SizeLinesAreFollowed()
    ensures Follows(SizeLineAt, CutMattersAt, GoodSizeLine)
  {
    forall line: string, size: nat, buf: string, pos: nat | GoodSizeLine(line, size) && Lies(line + CRLF, buf, pos)
      ensures SizeLineAt(buf, pos) == Size(size + 2, |line| + 2) && !CutMattersAt(buf, pos)
    {
      GoodSizeLineIsRead(line, size, buf, pos);
    }
  }

  lemma LastIsMet(reader: Reader, matters: Tell, good: SizeRule, last: string, buf: string, pos: nat)
    requires Follows(reader, matters, good) && good(last, 0) && Lies((last + CRLF) + CRLF, buf, pos)
    ensures Meets(reader, matters, buf, pos, [], pos + |last| + 4)
  {
    LiesInParts(last + CRLF, CRLF, buf, pos);
  }

  lemma FirstIsRead(reader: Reader, matters: Tell, good: SizeRule, c: Chunk, rest: string, buf: string, pos: nat) returns (next: nat)
    requires Follows(reader, matters, good) && good(c.line, |c.data|) && Lies((c.line + CRLF) + (c.data + CRLF) + rest, buf, pos)
    ensures reader(buf, pos) == Size(|c.data| + 2, |c.line| + 2) && !matters(buf, pos)
    ensures next == pos + |c.line| + |c.data| + 4 && Lies(rest, buf, next)
    ensures next + |rest| == pos + |(c.line + CRLF) + (c.data + CRLF) + rest|
  {
    LiesInParts((c.line + CRLF) + (c.data + CRLF), rest, buf, pos);
    LiesInParts(c.line + CRLF, c.data + CRLF, buf, pos);
    next := pos + |c.line| + |c.data| + 4;
  }

  lemma {:induction false} EncodedIsMet(reader: Reader, matters: Tell, good: SizeRule, chunks: seq<Chunk>, last: string, buf: string, pos: nat)
    requires Follows(reader, matters, good) && ChunksBy(good, chunks) && good(last, 0) && Lies(Encode(chunks, last), buf, pos)
    ensures Meets(reader, matters, buf, pos, chunks, pos + |Encode(chunks, last)|)
    decreases |chunks|
  {
    if |chunks| == 0 {
      LastIsMet(reader, matters, good, last, buf, pos);
      assert chunks == [];
    } else {
      var next := FirstIsRead(reader, matters, good, chunks[0], Encode(chunks[1..], last), buf, pos);
      EncodedIsMet(reader, matters, good, chunks[1..], last, buf, next);
    }
  }

  lemma {:induction false} MetIsScanned(reader: Reader, matters: Tell, buf: string, pos: nat, chunks: seq<Chunk>, end: nat)
    requires Bounded(reader) && pos <= |buf| && Meets(reader, matters, buf, pos, chunks, end)
    ensures ScanWith(reader, buf, Start(pos)) == Scan(end, 2, 2, LastChunk) && Settled(reader, matters, buf, Start(pos))
    decreases |chunks|
  {
    var l := reader(buf, pos);
    assert EndsInside(buf, pos, l);
    if |chunks| > 0 {
      MetIsScanned(reader, matters, buf, pos + l.next + l.size, chunks[1..], end);
    }
  }

  lemma LiesBetween(before: string, text: string, after: string)
    ensures Lies(text, before + text + after, |before|)
  {
  }

  // On the chunked encoding of any chunk list the scanner reports the end, with
  // sppos right behind the body, whatever follows.
  lemma EncodedBodyIsScanned(before: string, chunks: seq<Chunk>, last: string, after: string)
    requires GoodChunks(chunks) && GoodSizeLine(last, 0)
    ensures var buf := before + Encode(chunks, last) + after;
      SettledFrom(buf, Start(|before|)) && Resume(buf, Start(|before|)) == Scan(|before| + |Encode(chunks, last)|, 2, 2, LastChunk)
  {
    SizeLineIsBounded();
    SizeLinesAreFollowed();
    EncodedIsScanned(SizeLineAt, CutMattersAt, GoodSizeLine, before, chunks, last, after);
  }

  lemma LyingIsScanned(reader: Reader, matters: Tell, good: SizeRule, chunks: seq<Chunk>, last: string, buf: string, pos: nat)
    requires Bounded(reader) && Follows(reader, matters, good) && ChunksBy(good, chunks) && good(last, 0)
    requires Lies(Encode(chunks, last), buf, pos)
    ensures pos <= |buf| && ScanWith(reader, buf, Start(pos)) == Scan(pos + |Encode(chunks, last)|, 2, 2, LastChunk)
    ensures Settled(reader, matters, buf, Start(pos))
  {
    EncodedIsMet(reader, matters, good, chunks, last, buf, pos);
    MetIsScanned(reader, matters, buf, pos, chunks, pos + |Encode(chunks, last)|);
  }

  lemma EncodedIsScanned(reader: Reader, matters: Tell, good: SizeRule, before: string, chunks: seq<Chunk>, last: string, after: string)
    requires Bounded(reader) && Follows(reader, matters, good) && ChunksBy(good, chunks) && good(last, 0)
    ensures var buf := before + Encode(chunks, last) + after;
      && ScanWith(reader, buf, Start(|before|)) == Scan(|before| + |Encode(chunks, last)|, 2, 2, LastChunk)
      && Settled(reader, matters, buf, Start(|before|))
  {
    LiesBetween(before, Encode(chunks, last), after);
    LyingIsScanned(reader, matters, good, chunks, last, before + Encode(chunks, last) + after, |before|);
  }

  // The end is reported exactly when the last byte of the body is there.
  lemma EndIsReportedExactly(before: string, chunks: seq<Chunk>, last: string, part: string)
    requires GoodChunks(chunks) && GoodSizeLine(last, 0) && part <= Encode(chunks, last)
    ensures Resume(before + part, Start(|before|)).status == LastChunk <==> part == Encode(chunks, last)
    ensures SettledFrom(before + part, Start(|before|))
  {
    EncodedBodyIsScanned(before, chunks, last, "");
    var all := before + Encode(chunks, last);
    assert all + "" == all;
    assert before + part <= all;
    Resumes(before + part, all, Start(|before|));
  }

  // ----- Sizes as they are usually printed -----

  function Hex(n: nat): string {
    Numeral(n, 16, false)
  }

  // A chunk extension, or what else may follow the size in its line.
  ghost predicate Extension(ext: string) {
    && '\0' !in ext && (forall i :: !MatchAt(ext, CRLF, i))
    && (ext != "" ==> !IsHex(ext[0]) && ext[0] != 'x' && ext[0] != 'X')
  }

  lemma NumeralHasNoCrlf(ds: string, ext: string)
    requires AllDigits(ds, 16) && Extension(ext)
    ensures '\0' !in ds + ext && forall i :: !MatchAt(ds + ext, CRLF, i)
  {
    var line := ds + ext;
    forall i ensures !MatchAt(line, CRLF, i) {
      if 0 <= i < |ds| {
        assert IsDigit(ds[i], 16) && line[i] == ds[i];
      } else {
        assert !MatchAt(ext, CRLF, i - |ds|);
      }
    }
    forall i | 0 <= i < |line| ensures line[i] != '\0' {
      assert i < |ds| ==> IsDigit(ds[i], 16);
      assert i >= |ds| ==> line[i] == ext[i - |ds|];
    }
  }

  // The size printed in hexadecimal, in small letters or capitals, with an extension or without, is
  // a good size line for that size.
  lemma HexIsGood(n: nat, upper: bool, ext: string)
    requires n <= LONG_MAX - 2 && Extension(ext)
    ensures GoodSizeLine(Numeral(n, 16, upper) + ext, n)
  {
    var ds := Numeral(n, 16, upper);
    NumeralIsRead(n, 16, upper);
    NumeralHasNoCrlf(ds, ext);
    assert ds + ext + CRLF == ds + (ext + CRLF);
    PrintedIsRead(n, 16, upper, ext + CRLF);
    assert IsDigit(ds[0], 16) && (ds + ext)[0] == ds[0];
  }

  // ----- What any size line makes the scanner do -----

  // A scanner that has been given this many bytes to pass over, and has nothing else to do.
  predicate Passing(buf: string, sc: Scan, size: int, got: int) {
    sc.status == Scanning && sc.pos == |buf| && sc.size == size && sc.got == got
  }

  // What the scanner comes to behind a size line that reads as v and ends before p: 0 is the last
  // chunk; v bytes and a CRLF are passed over, be v -1 or -2; a smaller v, and one that leaves no
  // room for the CRLF in a long, passes over all that is there.
  ghost predicate DecidedBy(reader: Reader, buf: string, r: Scan, v: int, p: nat)
    requires Bounded(reader) && p <= |buf|
  {
    if v == 0 then if |buf| - p >= 2 then r == Scan(p + 2, 2, 2, LastChunk) else Passing(buf, r, 2, |buf| - p)
    else if -2 <= v <= 0x7FFF_FFFF_FFFF_FFFD then
      if |buf| - p >= v + 2 then r == ScanWith(reader, buf, Start(p + v + 2)) else Passing(buf, r, v + 2, |buf| - p)
    else if v == -3 then Passing(buf, r, -1, |buf| - p)
    else Passing(buf, r, r.size, |buf| - p) && r.size < -1
  }

  lemma LineThenChunk(reader: Reader, buf: string, pos: nat)
    requires Bounded(reader) && pos <= |buf| && reader(buf, pos).Size?
    ensures var l := reader(buf, pos); var sc := Scan(pos + l.next, l.size, 0, Scanning);
      2 <= l.next && Collectable(buf, sc) && ScanWith(reader, buf, Start(pos)) == Collect(reader, buf, sc)
  {
    assert EndsInside(buf, pos, reader(buf, pos));
  }

  lemma StrtolIsLong(c: string)
    ensures LONG_MIN <= Strtol(c, 16) <= LONG_MAX
  {
    ClampIs(0);
  }

  lemma ChunkDecides(reader: Reader, buf: string, sc: Scan)
    requires Bounded(reader) && Collectable(buf, sc) && sc.got == 0 && |buf| < 0x8000_0000_0000_0000
    ensures var r, left := Collect(reader, buf, sc), |buf| - sc.pos;
      if sc.size < 0 || left < sc.size then Passing(buf, r, sc.size, left)
      else r == if sc.size == 2 then Scan(sc.pos + 2, 2, 2, LastChunk) else ScanWith(reader, buf, Start(sc.pos + sc.size))
  {
    var available := |buf| - sc.pos;
    if sc.size < 0 || available < sc.size {
      assert available < Target(sc.size) && Available(buf, sc) == available;
    } else {
      assert Target(sc.size) == sc.size && Available(buf, sc) == sc.size;
    }
  }

  lemma SizeDecides(reader: Reader, buf: string, v: int, p: nat)
    requires Bounded(reader) && p <= |buf| < 0x8000_0000_0000_0000 && LONG_MIN <= v <= LONG_MAX
    ensures Collectable(buf, Scan(p, Wrapped(v + 2), 0, Scanning))
    ensures DecidedBy(reader, buf, Collect(reader, buf, Scan(p, Wrapped(v + 2), 0, Scanning)), v, p)
  {
    ChunkDecides(reader, buf, Scan(p, Wrapped(v + 2), 0, Scanning));
  }

  lemma LineDecidesWith(reader: Reader, buf: string, pos: nat, v: int, next: nat)
    requires Bounded(reader) && pos <= |buf| < 0x8000_0000_0000_0000 && LONG_MIN <= v <= LONG_MAX
    requires reader(buf, pos) == Size(Wrapped(v + 2), next)
    ensures pos + next <= |buf| && DecidedBy(reader, buf, ScanWith(reader, buf, Start(pos)), v, pos + next)
  {
    LineThenChunk(reader, buf, pos);
    SizeDecides(reader, buf, v, pos + next);
  }

  lemma LineDecides(buf: string, pos: nat)
    requires pos <= |buf| < 0x8000_0000_0000_0000
    ensures var c := CStr(buf[pos..]); var crlf, r := Find(c, CRLF, 0), Resume(buf, Start(pos));
      if crlf < 0 then r == Start(pos)
      else Bounded(SizeLineAt) && pos + crlf + 2 <= |buf| && DecidedBy(SizeLineAt, buf, r, Strtol(c, 16), pos + crlf + 2)
  {
    SizeLineIsBounded();
    var c := CStr(buf[pos..]);
    if Find(c, CRLF, 0) < 0 {
      return;
    }
    StrtolIsLong(c);
    LineDecidesWith(SizeLineAt, buf, pos, Strtol(c, 16), Find(c, CRLF, 0) + 2);
  }

  // Such a size is never met.
  lemma HugeSizeNeverEnds(buf: string, sc: Scan, more: string)
    requires Consistent(buf, sc) && sc.status == Scanning && sc.size < -1 && sc.got <= sc.pos == |buf|
    requires buf <= more && |more| < 0x8000_0000_0000_0000
    ensures Passing(more, Resume(more, sc), sc.size, sc.got + |more| - |buf|)
  {
    SizeLineIsBounded();
    assert Available(more, sc) == |more| - sc.pos;
    assert Resume(more, sc) == Collect(SizeLineAt, more, sc);
  }

  // ----- Blank size lines -----

  ghost predicate SameSize(line: string, more: string) {
    Strtol(line + CRLF + more, 16) == Strtol(line + CRLF, 16)
  }

  // strtol returns the same whatever follows a size line exactly if the line is not blank. On a
  // blank one the value depends on whether the next line has been read.
  lemma SizeIsOfTheLineIffNotBlank(line: string)
    ensures (forall more: string :: SameSize(line, more)) <==> !Blank(line)
  {
    if k :| 0 <= k < |line| && !IsSpace(line[k]) {
      forall more: string ensures SameSize(line, more) {
        StrtolGrows(line + CRLF, line + CRLF + more, k, |line|);
      }
    } else {
      assert Blank(line + CRLF);
      BlankIsSkipped(line + CRLF, "5");
      BlankIsSkipped(line + CRLF, "");
      assert line + CRLF + "" == line + CRLF;
      assert Digits("5", 16, 0) == Digits("", 16, 5);
      assert !SameSize(line, "5");
    }
  }

  const FIVE := "\r\n5\r"

  lemma FiveIsRead(before: string)
    ensures SizeLineAt(before + FIVE, |before|) == Size(7, 2) && SizeLineAt(before + CRLF, |before|) == Size(2, 2)
  {
    assert (before + FIVE)[|before|..] == FIVE == "\r\n" + "5\r" && (before + CRLF)[|before|..] == CRLF;
    CStrIsPrefix(FIVE);
    CStrIsPrefix(CRLF);
    BlankIsSkipped("\r\n", "5\r");
    AllBlankIsZero("\r\n");
    assert "5\r"[1..] == "\r" && Digits("5\r", 16, 0) == Digits("\r", 16, 5) == 5;
  }

  lemma PartOfChunk(reader: Reader, buf: string, pos: nat)
    requires Bounded(reader) && pos <= |buf| && reader(buf, pos).Size? && |buf| - pos - reader(buf, pos).next < reader(buf, pos).size
    ensures var l := reader(buf, pos);
      ScanWith(reader, buf, Start(pos)) == Scan(|buf|, l.size, |buf| - pos - l.next, Scanning)
  {
    assert EndsInside(buf, pos, reader(buf, pos));
  }

  lemma LastIsAll(reader: Reader, buf: string, pos: nat)
    requires Bounded(reader) && pos + 2 == |buf|
    ensures ScanWith(reader, buf, Scan(pos, 2, 0, Scanning)) == Scan(pos + 2, 2, 2, LastChunk)
  {
  }

  // Such a line, and two bytes: read at once they begin a chunk of five bytes; read in two they are
  // the end of the body.
  lemma BlankLineDependsOnCut(before: string)
    ensures var start, all := Start(|before|), before + FIVE;
      && Resume(all, start) == Scan(|before| + 4, 7, 2, Scanning)
      && Resume(before + CRLF, start) == Scan(|before| + 2, 2, 0, Scanning) && SettledFrom(before + CRLF, start)
      && Resume(all, Resume(before + CRLF, start)) == Scan(|before| + 4, 2, 2, LastChunk)
  {
    FiveIsRead(before);
    SizeLineIsBounded();
    assert |CRLF| == 2 && |FIVE| == 4;
    PartOfChunk(SizeLineAt, before + FIVE, |before|);
    PartOfChunk(SizeLineAt, before + CRLF, |before|);
    LastIsAll(SizeLineAt, before + FIVE, |before| + 2);
    assert (before + CRLF)[|before|..] == CRLF;
    assert !CutMattersAt(before + CRLF, |before|);
  }
}
