/**
 The Content-Range header of a resumable upload (section 14.4 of RFC 9110, plus
 the forms with an unknown end and the status query that Cloud Storage adds).
 */
module ContentRange {
  import opened Prelude
  import opened Decimal

  datatype Range = Range(start: nat, total: int, query: bool, last: bool)

  const UNIT: string := "bytes "

  /** Nothing when the header is rejected. */
  function ParseContentRange(header: string): (r: Option<Range>)
    ensures r.Some? ==> r.value.start < TWO_63 && -1 <= r.value.total < TWO_63
    ensures r.Some? && r.value.query ==> r.value.start == 0 && !r.value.last
  {
    if header == "" then Some(Range(0, -1, false, true))
    else if !(UNIT <= header) then None
    else match Cut(header[|UNIT|..], '/')
      case None => None
      case Some((span, size)) => ParseParts(span, size)
  }

  function ParseParts(span: string, size: string): (r: Option<Range>)
    ensures r.Some? ==> r.value.start < TWO_63 && -1 <= r.value.total < TWO_63
    ensures r.Some? && r.value.query ==> r.value.start == 0 && !r.value.last
  {
    var n := ParseInt(size);
    if size != "*" && (n.None? || n.value < 0) then None
    else
      var total := if size == "*" then -1 else n.value;
      if span == "*" then Some(Range(0, total, true, false))
      else match Cut(span, '-')
        case None => None
        case Some((first, end)) =>
          match ParseInt(first)
          case None => None
          case Some(start) => if start < 0 then None else Some(Range(start, total, false, end == "*"))
  }

  /** What a client means to say. */
  datatype Span = Query | Chunk(first: nat, end: nat) | Rest(first: nat)

  function SpanText(span: Span): string {
    match span
    case Query => "*"
    case Chunk(first, end) => Digits(first) + ['-'] + Digits(end)
    case Rest(first) => Digits(first) + ['-'] + "*"
  }

  function SizeText(size: Option<nat>): string {
    match size
    case None => "*"
    case Some(n) => Digits(n)
  }

  function Print(span: Span, size: Option<nat>): string {
    UNIT + (SpanText(span) + ['/'] + SizeText(size))
  }

  function Meaning(span: Span, size: Option<nat>): Range {
    Range(if span.Query? then 0 else span.first,
          if size.None? then -1 else size.value,
          span.Query?, span.Rest?)
  }

  lemma NoSeparators(n: nat)
    ensures '-' !in Digits(n) && '/' !in Digits(n) && Digits(n) != "*"
  {
    DigitsRoundTrip(n);
  }

  lemma CutSpan(span: Span)
    requires !span.Query?
    ensures Cut(SpanText(span), '-') == Some((Digits(span.first), if span.Rest? then "*" else Digits(span.end)))
  {
    NoSeparators(span.first);
    CutInvertsJoin(Digits(span.first), '-', if span.Rest? then "*" else Digits(span.end));
  }

  lemma SpanHasNoSlash(span: Span)
    ensures '/' !in SpanText(span) && (SpanText(span) == "*" <==> span.Query?)
  {
    if !span.Query? {
      NoSeparators(span.first);
      assert SpanText(span)[|Digits(span.first)|] == '-';
    }
    if span.Chunk? {
      NoSeparators(span.end);
    }
  }

  lemma ParsePartsInverts(span: Span, size: Option<nat>)
    requires !span.Query? ==> span.first < TWO_63
    requires size.Some? ==> size.value < TWO_63
    ensures ParseParts(SpanText(span), SizeText(size)) == Some(Meaning(span, size))
  {
    SpanHasNoSlash(span);
    if size.Some? {
      NoSeparators(size.value);
      ParseInvertsDigits(size.value);
    }
    if !span.Query? {
      CutSpan(span);
      ParseInvertsDigits(span.first);
      NoSeparators(if span.Chunk? then span.end else 0);
    }
  }

  /** Parsing inverts printing, for every form and all values below 2^63. */
  lemma ParseInvertsPrint(span: Span, size: Option<nat>)
    requires !span.Query? ==> span.first < TWO_63
    requires size.Some? ==> size.value < TWO_63
    ensures ParseContentRange(Print(span, size)) == Some(Meaning(span, size))
  {
    SpanHasNoSlash(span);
    var tail := SpanText(span) + ['/'] + SizeText(size);
    assert UNIT <= UNIT + tail && (UNIT + tail)[|UNIT|..] == tail;
    CutInvertsJoin(SpanText(span), '/', SizeText(size));
    ParsePartsInverts(span, size);
  }

  // Which headers are accepted.

  /** A decimal text for an offset: digits with an optional plus sign and a value below 2^63, or a negative zero. */
  ghost predicate OffsetText(s: string) {
    exists digits :: OffsetDigits(s, digits)
  }

  ghost predicate OffsetDigits(s: string, digits: string) {
    && digits != "" && AllDigits(digits)
    && (s == digits || s == "+" + digits ==> ValueOf(digits) < TWO_63)
    && (s == digits || s == "+" + digits || (s == "-" + digits && ValueOf(digits) == 0))
  }

  lemma OffsetParses(s: string)
    ensures OffsetText(s) <==> ParseInt(s).Some? && ParseInt(s).value >= 0
  {
    if ParseInt(s).Some? && ParseInt(s).value >= 0 {
      var digits := if s[0] == '+' || s[0] == '-' then s[1..] else s;
      assert s == digits || s == "+" + digits || s == "-" + digits;
      assert OffsetDigits(s, digits);
    }
    if digits :| OffsetDigits(s, digits) {
      assert IsDigit(digits[0]);
      assert ("+" + digits)[1..] == digits && ("-" + digits)[1..] == digits;
    }
  }

  ghost predicate SpanForm(span: string, first: string, end: string) {
    span == first + ['-'] + end && '-' !in first && OffsetText(first)
  }

  ghost predicate HeaderForm(header: string, span: string, size: string) {
    && header == UNIT + (span + ['/'] + size) && '/' !in span
    && (size == "*" || OffsetText(size))
    && (span == "*" || exists first, end :: SpanForm(span, first, end))
  }

  lemma SpanAccepted(span: string)
    requires span != "*"
    ensures (exists first, end :: SpanForm(span, first, end))
       <==> Cut(span, '-').Some? && ParseInt(Cut(span, '-').value.0).Some? && ParseInt(Cut(span, '-').value.0).value >= 0
  {
    if first, end :| SpanForm(span, first, end) {
      CutInvertsJoin(first, '-', end);
      OffsetParses(first);
    }
    if Cut(span, '-').Some? {
      var (first, end) := Cut(span, '-').value;
      OffsetParses(first);
      assert OffsetText(first) ==> SpanForm(span, first, end);
    }
  }

  lemma PartsAccepted(span: string, size: string)
    ensures ParseParts(span, size).Some?
       <==> (size == "*" || OffsetText(size)) && (span == "*" || exists first, end :: SpanForm(span, first, end))
  {
    OffsetParses(size);
    if span != "*" {
      SpanAccepted(span);
    }
  }

  /**
   The accepted headers, by their text: none at all, or "bytes ", a span
   without a slash, a slash and a size, where the size is a star or an offset,
   and the span is a star or an offset before a dash. What follows the dash is
   free.
   */
  lemma AcceptedHeaders(header: string)
    ensures ParseContentRange(header).Some? <==> header == "" || exists span, size :: HeaderForm(header, span, size)
  {
    if span, size :| HeaderForm(header, span, size) {
      var tail := span + ['/'] + size;
      assert header[|UNIT|..] == tail;
      CutInvertsJoin(span, '/', size);
      PartsAccepted(span, size);
    }
    if header != "" && ParseContentRange(header).Some? {
      var (span, size) := Cut(header[|UNIT|..], '/').value;
      assert header == UNIT + header[|UNIT|..];
      PartsAccepted(span, size);
      assert HeaderForm(header, span, size);
    }
  }

  // The end of a range is not read.

  lemma PartsEndIsIgnored(first: nat, end: string, size: Option<nat>)
    requires first < TWO_63 && (size.Some? ==> size.value < TWO_63)
    ensures ParseParts(Digits(first) + ['-'] + end, SizeText(size))
         == Some(Range(first, if size.None? then -1 else size.value, false, end == "*"))
  {
    var span := Digits(first) + ['-'] + end;
    NoSeparators(first);
    assert span[|Digits(first)|] == '-';
    CutInvertsJoin(Digits(first), '-', end);
    ParseInvertsDigits(first);
    if size.Some? {
      NoSeparators(size.value);
      ParseInvertsDigits(size.value);
    }
  }

  /** Whatever stands behind the dash, the header means its start and size; only a star there says anything. */
  lemma EndIsIgnored(first: nat, end: string, size: Option<nat>)
    requires first < TWO_63 && '/' !in end && (size.Some? ==> size.value < TWO_63)
    ensures ParseContentRange(UNIT + (Digits(first) + ['-'] + end + ['/'] + SizeText(size)))
         == Some(Range(first, if size.None? then -1 else size.value, false, end == "*"))
  {
    var span := Digits(first) + ['-'] + end;
    var tail := span + ['/'] + SizeText(size);
    assert (UNIT + tail)[|UNIT|..] == tail;
    NoSeparators(first);
    CutInvertsJoin(span, '/', SizeText(size));
    PartsEndIsIgnored(first, end, size);
  }

  predicate Number(s: string) { s != "" && AllDigits(s) }

  function RangeText(first: string, end: string, size: string): string {
    UNIT + (first + ['-'] + end + ['/'] + size)
  }

  /**
   The header is a range that section 14.4 of RFC 9110 calls valid: numbers
   only, the end not before the start and in front of the size, if one is given.
   */
  ghost predicate ValidRange(header: string, first: string, end: string, size: string) {
    && header == RangeText(first, end, size)
    && Number(first) && Number(end) && (size == "*" || Number(size))
    && ValueOf(first) <= ValueOf(end) && (size == "*" || ValueOf(end) < ValueOf(size))
  }

  ghost predicate ValidByStandard(header: string) {
    exists first, end, size :: ValidRange(header, first, end, size)
  }

  lemma RangeTextCuts(first: string, end: string, size: string)
    requires Number(first) && Number(end)
    ensures var tail := RangeText(first, end, size)[|UNIT|..];
            Cut(tail, '/') == Some((first + ['-'] + end, size)) && Cut(first + ['-'] + end, '-') == Some((first, end))
  {
    var span := first + ['-'] + end;
    assert RangeText(first, end, size)[|UNIT|..] == span + ['/'] + size;
    assert '/' !in span;
    CutInvertsJoin(span, '/', size);
    CutInvertsJoin(first, '-', end);
  }

  lemma NumberIsOffset(s: string)
    requires Number(s) && ValueOf(s) < TWO_63
    ensures OffsetText(s)
  {
    assert IsDigit(s[0]);
    assert OffsetDigits(s, s);
  }

  /**
   Every numeric range below 2^63 is accepted, and the standard calls it valid
   exactly when its start is not behind its end and its end is in front of its size.
   */
  lemma AcceptsInvalidRanges(first: string, end: string, size: string)
    requires Number(first) && Number(end) && (size == "*" || Number(size))
    requires ValueOf(first) < TWO_63 && (size == "*" || ValueOf(size) < TWO_63)
    ensures ParseContentRange(RangeText(first, end, size)).Some?
    ensures ValidByStandard(RangeText(first, end, size))
       <==> ValueOf(first) <= ValueOf(end) && (size == "*" || ValueOf(end) < ValueOf(size))
  {
    var header, span := RangeText(first, end, size), first + ['-'] + end;
    NumberIsOffset(first);
    if size != "*" {
      NumberIsOffset(size);
    }
    assert '/' !in span;
    assert SpanForm(span, first, end);
    assert HeaderForm(header, span, size);
    AcceptedHeaders(header);
    if a, e, z :| ValidRange(header, a, e, z) {
      RangeTextCuts(first, end, size);
      RangeTextCuts(a, e, z);
    }
    assert ValueOf(first) <= ValueOf(end) && (size == "*" || ValueOf(end) < ValueOf(size)) ==> ValidRange(header, first, end, size);
  }

  lemma BackwardRangeText()
    ensures RangeText("9", "2", "20") == "bytes 9-2/20"
  {
  }

  lemma BackwardNumbers()
    ensures Number("9") && ValueOf("9") == 9 && Number("2") && ValueOf("2") == 2 && Number("20") && ValueOf("20") == 20
    ensures Digits(9) == "9" && SizeText(Some(20)) == "20"
  {
    assert "20"[..1] == "2" && "2"[..0] == "" && "9"[..0] == "";
  }

  /** It does happen. */
  lemma BackwardRangeIsAccepted()
    ensures ParseContentRange("bytes 9-2/20") == Some(Range(9, 20, false, false)) && !ValidByStandard("bytes 9-2/20")
  {
    BackwardRangeText();
    BackwardNumbers();
    EndIsIgnored(9, "2", Some(20));
    AcceptsInvalidRanges("9", "2", "20");
  }

  /** The Range header of an unfinished upload; there is none while nothing is stored. */
  function RangeHeader(persisted: nat): Option<string> {
    if persisted == 0 then None else Some("bytes=0-" + Digits(persisted - 1))
  }

  /** Where a client resumes that reads this header. */
  function ResumeOffset(range: Option<string>): int {
    match range
    case None => 0
    case Some(text) =>
      if "bytes=0-" <= text then
        match ParseInt(text[8..])
        case None => 0
        case Some(n) => n + 1
      else 0
  }

  /** The texts as they stand on the wire. */
  lemma WireTexts()
    ensures ParseContentRange("") == Some(Range(0, -1, false, true))
    ensures ParseContentRange("bytes */*") == Some(Range(0, -1, true, false))
    ensures RangeHeader(0) == None && RangeHeader(5) == Some("bytes=0-4")
  {
    ParseInvertsPrint(Query, None);
    assert "bytes */*" == UNIT + ("*" + ['/'] + "*") == Print(Query, None);
    assert Digits(4) == "4" && "bytes=0-" + "4" == "bytes=0-4";
  }

  /** The client resumes exactly where the server stands. */
  lemma OffsetIsPersisted(persisted: nat)
    requires persisted <= TWO_63
    ensures ResumeOffset(RangeHeader(persisted)) == persisted
  {
    if persisted > 0 {
      ParseInvertsDigits(persisted - 1);
      assert ("bytes=0-" + Digits(persisted - 1))[8..] == Digits(persisted - 1);
    }
  }
}
