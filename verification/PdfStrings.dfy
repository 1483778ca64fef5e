/**
 Literal strings of a page's content stream, as section 7.3.4.2 of ISO 32000-1 writes them:
 between parentheses, which may nest when balanced, with backslash escapes.
 */
module PdfStrings {
  import opened Common

  type Byte = n: int | 0 <= n < 256

  const OPEN: Byte := 0x28
  const CLOSE: Byte := 0x29
  const BACKSLASH: Byte := 0x5c
  const LF: Byte := 0x0a
  const CR: Byte := 0x0d
  const MAX_STRING_BYTES := 1_000_000

  predicate IsOctal(b: Byte) {
    0x30 <= b <= 0x37
  }

  // ---- the reader ----

  datatype Read = Read(text: seq<nat>, endIndex: nat)

  /** The octal digits from an index on, at most `limit` of them. */
  function DigitRun(bytes: seq<Byte>, index: nat, limit: nat): (run: seq<Byte>)
    ensures |run| <= limit && index + |run| <= if index <= |bytes| then |bytes| else index
    decreases limit
  {
    if limit == 0 || index >= |bytes| || !IsOctal(bytes[index]) then []
    else [bytes[index]] + DigitRun(bytes, index + 1, limit - 1)
  }

  function OctalDigit(b: Byte): nat
    requires IsOctal(b)
  {
    var code: int := b;
    code - 0x30
  }

  function OctalValue(digits: seq<Byte>): (value: nat)
    requires forall i :: 0 <= i < |digits| ==> IsOctal(digits[i])
  {
    if digits == [] then 0 else 8 * OctalValue(digits[..|digits| - 1]) + OctalDigit(digits[|digits| - 1])
  }

  /** The character an escape other than an octal one stands for. */
  function Named(b: Byte): nat {
    if b == 0x6e then 0x0a
    else if b == 0x72 then 0x0d
    else if b == 0x74 then 0x09
    else if b == 0x62 then 0x08
    else if b == 0x66 then 0x0c
    else b
  }

  lemma {:induction false} RunIsOctal(bytes: seq<Byte>, index: nat, limit: nat)
    ensures forall i :: 0 <= i < |DigitRun(bytes, index, limit)| ==> IsOctal(DigitRun(bytes, index, limit)[i])
    decreases limit
  {
    if limit > 0 && index < |bytes| && IsOctal(bytes[index]) {
      RunIsOctal(bytes, index + 1, limit - 1);
    }
  }

  function DecodeEscape(bytes: seq<Byte>, index: nat): nat
    requires index < |bytes|
  {
    if IsOctal(bytes[index]) then
      RunIsOctal(bytes, index, 3);
      OctalValue(DigitRun(bytes, index, 3))
    else Named(bytes[index])
  }

  /** The index after the digits that are skipped: the bound counts from the string's start. */
  function SkipDigits(bytes: seq<Byte>, start: nat, index: nat): (after: nat)
    requires start < index < |bytes|
    ensures index <= after < |bytes|
    decreases |bytes| - index
  {
    if index + 1 < |bytes| && index - start < 3 && IsOctal(bytes[index + 1]) then SkipDigits(bytes, start, index + 1) else index
  }

  /** Reading on from `index`, inside `depth` open parentheses, the text so far being `text`. */
  function ReadFrom(bytes: seq<Byte>, limit: nat, start: nat, index: nat, depth: nat, escaped: bool, text: seq<nat>): Option<Read>
    requires start < index && depth > 0
    decreases |bytes| - index
  {
    if index >= |bytes| || index - start > limit then None
    else
      var value := bytes[index];
      if escaped then
        var last := if IsOctal(value) then SkipDigits(bytes, start, index) else index;
        ReadFrom(bytes, limit, start, last + 1, depth, false, text + [DecodeEscape(bytes, index)])
      else if value == BACKSLASH then ReadFrom(bytes, limit, start, index + 1, depth, true, text)
      else if value == OPEN then ReadFrom(bytes, limit, start, index + 1, depth + 1, false, text + [OPEN])
      else if value == CLOSE then
        if depth == 1 then Some(Read(text, index))
        else ReadFrom(bytes, limit, start, index + 1, depth - 1, false, text + [CLOSE])
      else ReadFrom(bytes, limit, start, index + 1, depth, false, text + [value])
  }

  method ReadLiteralString(bytes: seq<Byte>, startIndex: nat) returns (result: Option<Read>)
    ensures result == ReadFrom(bytes, MAX_STRING_BYTES, startIndex, startIndex + 1, 1, false, [])
    ensures result.Some? ==> startIndex < result.value.endIndex < |bytes| && bytes[result.value.endIndex] == CLOSE
  {
    var depth, escaped, text := 1, false, [];
    var index := startIndex + 1;
    while index < |bytes|
      invariant startIndex < index && depth > 0
      invariant ReadFrom(bytes, MAX_STRING_BYTES, startIndex, index, depth, escaped, text) == ReadFrom(bytes, MAX_STRING_BYTES, startIndex, startIndex + 1, 1, false, [])
      decreases |bytes| - index
    {
      if index - startIndex > MAX_STRING_BYTES {
        return None;
      }
      var value := bytes[index];
      if escaped {
        text := text + [DecodeEscape(bytes, index)];
        if IsOctal(value) {
          ghost var digit := index;
          while index + 1 < |bytes| && index - startIndex < 3 && IsOctal(bytes[index + 1])
            invariant digit <= index < |bytes|
            invariant SkipDigits(bytes, startIndex, index) == SkipDigits(bytes, startIndex, digit)
          {
            index := index + 1;
          }
        }
        escaped := false;
      } else if value == BACKSLASH {
        escaped := true;
      } else if value == OPEN {
        depth := depth + 1;
        text := text + [OPEN];
      } else if value == CLOSE {
        depth := depth - 1;
        if depth == 0 {
          return Some(Read(text, index));
        }
        text := text + [CLOSE];
      } else {
        text := text + [value];
      }
      index := index + 1;
    }
    return None;
  }

  // ---- how strings are written, and what the standard says they mean ----

  datatype Piece =
    | Bare(b: Byte)                 // a byte standing for itself, or a balanced parenthesis
    | Escape(b: Byte)               // a backslash and one other byte
    | Octal(digits: seq<Byte>)      // a backslash and one to three octal digits
    | LineEnd(eol: seq<Byte>)       // a line end standing for a line feed
    | Continuation(eol: seq<Byte>)  // a backslash and a line end, standing for nothing

  predicate IsEol(eol: seq<Byte>) {
    eol == [LF] || eol == [CR] || eol == [CR, LF]
  }

  predicate Legal(p: Piece) {
    match p
    case Bare(b) => b != BACKSLASH && b != LF && b != CR
    case Escape(b) => !IsOctal(b) && b != LF && b != CR
    case Octal(digits) => 1 <= |digits| <= 3 && forall i :: 0 <= i < |digits| ==> IsOctal(digits[i])
    case LineEnd(eol) => IsEol(eol)
    case Continuation(eol) => IsEol(eol)
  }

  function Print(p: Piece): seq<Byte> {
    match p
    case Bare(b) => [b]
    case Escape(b) => [BACKSLASH, b]
    case Octal(digits) => [BACKSLASH] + digits
    case LineEnd(eol) => eol
    case Continuation(eol) => [BACKSLASH] + eol
  }

  function PrintAll(pieces: seq<Piece>): seq<Byte> {
    if pieces == [] then [] else Print(pieces[0]) + PrintAll(pieces[1..])
  }

  /** What a piece stands for; the overflow of an octal escape is ignored. */
  function Meaning(p: Piece): seq<nat>
    requires Legal(p)
  {
    match p
    case Bare(b) => [b]
    case Escape(b) => [Named(b)]
    case Octal(digits) => [OctalValue(digits) % 256]
    case LineEnd(_) => [LF as nat]
    case Continuation(_) => []
  }

  predicate AllLegal(pieces: seq<Piece>) {
    forall i :: 0 <= i < |pieces| ==> Legal(pieces[i])
  }

  function MeaningOf(pieces: seq<Piece>): seq<nat>
    requires AllLegal(pieces)
  {
    if pieces == [] then [] else Meaning(pieces[0]) + MeaningOf(pieces[1..])
  }

  function Depth(p: Piece, depth: nat): int {
    if p == Bare(OPEN) then depth + 1 else if p == Bare(CLOSE) then depth - 1 else depth
  }

  /** Bare parentheses balance, and no piece runs into the next one. */
  predicate WellWritten(pieces: seq<Piece>, depth: nat) {
    if pieces == [] then depth == 0
    else
      && Legal(pieces[0])
      && Depth(pieces[0], depth) >= 0
      && (pieces[0].Octal? && |pieces[0].digits| < 3 ==> !IsOctal((PrintAll(pieces[1..]) + [CLOSE])[0]))
      && ((pieces[0].LineEnd? || pieces[0].Continuation?) && pieces[0].eol == [CR] ==> (PrintAll(pieces[1..]) + [CLOSE])[0] != LF)
      && WellWritten(pieces[1..], Depth(pieces[0], depth))
  }

  /** What the reader makes of a piece, by whether it comes first in the string. */
  function Reading(p: Piece, first: bool): seq<nat>
    requires Legal(p)
  {
    match p
    case Bare(b) => [b]
    case Escape(b) => [Named(b)]
    case Octal(digits) => [OctalValue(digits)] + digits[if first && |digits| > 1 then 2 else 1..]
    case LineEnd(eol) => eol
    case Continuation(eol) => eol
  }

  function ReadingOf(pieces: seq<Piece>, first: bool): seq<nat>
    requires AllLegal(pieces)
  {
    if pieces == [] then [] else Reading(pieces[0], first) + ReadingOf(pieces[1..], false)
  }

  /** The pieces the reader understands. */
  predicate Understood(p: Piece, first: bool) {
    match p
    case Bare(_) => true
    case Escape(_) => true
    case Octal(digits) => |digits| == 1 || (|digits| == 2 && first)
    case LineEnd(eol) => eol == [LF]
    case Continuation(_) => false
  }

  predicate AllUnderstood(pieces: seq<Piece>) {
    forall i :: 0 <= i < |pieces| ==> Understood(pieces[i], i == 0)
  }

  lemma {:induction false} WellWrittenLegal(pieces: seq<Piece>, depth: nat)
    requires WellWritten(pieces, depth)
    ensures AllLegal(pieces)
  {
    if pieces != [] {
      WellWrittenLegal(pieces[1..], Depth(pieces[0], depth));
      assert pieces == [pieces[0]] + pieces[1..];
    }
  }

  // ---- the reader on written strings ----

  predicate At(bytes: seq<Byte>, index: nat, part: seq<Byte>) {
    index + |part| <= |bytes| && bytes[index..index + |part|] == part
  }

  lemma AtParts(bytes: seq<Byte>, index: nat, a: seq<Byte>, b: seq<Byte>)
    requires At(bytes, index, a + b)
    ensures At(bytes, index, a) && At(bytes, index + |a|, b)
  {
    var whole := bytes[index..index + |a + b|];
    assert whole[..|a|] == a && whole[|a|..] == b;
  }

  lemma AtFits(bytes: seq<Byte>, index: nat, part: seq<Byte>)
    requires At(bytes, index, part)
    ensures index + |part| <= |bytes|
  {
  }

  lemma AtByte(bytes: seq<Byte>, index: nat, part: seq<Byte>, i: nat)
    requires At(bytes, index, part) && i < |part|
    ensures index + i < |bytes| && bytes[index + i] == part[i]
  {
    assert bytes[index..index + |part|][i] == part[i];
  }

  /** Ordinary bytes are copied. */
  lemma {:induction false} ReadOrdinary(bytes: seq<Byte>, limit: nat, start: nat, index: nat, depth: nat, text: seq<nat>, part: seq<Byte>)
    requires start < index && depth > 0 && At(bytes, index, part) && index + |part| - start <= limit
    requires forall i :: 0 <= i < |part| ==> part[i] != BACKSLASH && part[i] != OPEN && part[i] != CLOSE
    ensures ReadFrom(bytes, limit, start, index, depth, false, text) == ReadFrom(bytes, limit, start, index + |part|, depth, false, text + part)
    decreases |part|
  {
    if part == [] {
      assert text + part == text;
    } else {
      AtByte(bytes, index, part, 0);
      assert part == [part[0]] + part[1..];
      AtParts(bytes, index, [part[0]], part[1..]);
      ReadOrdinary(bytes, limit, start, index + 1, depth, text + [part[0] as nat], part[1..]);
      assert text + [part[0] as nat] + part[1..] == text + part;
    }
  }

  /** The digits of a written octal escape are the ones decoded. */
  lemma {:induction false} RunIs(bytes: seq<Byte>, index: nat, digits: seq<Byte>, limit: nat)
    requires At(bytes, index, digits) && |digits| <= limit
    requires forall i :: 0 <= i < |digits| ==> IsOctal(digits[i])
    requires |digits| == limit || (index + |digits| < |bytes| && !IsOctal(bytes[index + |digits|]))
    ensures DigitRun(bytes, index, limit) == digits
    decreases limit
  {
    if digits != [] {
      AtByte(bytes, index, digits, 0);
      assert digits == [digits[0]] + digits[1..];
      AtParts(bytes, index, [digits[0]], digits[1..]);
      RunIs(bytes, index + 1, digits[1..], limit - 1);
    }
  }

  lemma ReadEscaped(bytes: seq<Byte>, limit: nat, start: nat, index: nat, depth: nat, text: seq<nat>)
    requires start < index && depth > 0 && index + 1 < |bytes| && index + 1 - start <= limit && bytes[index] == BACKSLASH
    ensures var last := if IsOctal(bytes[index + 1]) then SkipDigits(bytes, start, index + 1) else index + 1;
            ReadFrom(bytes, limit, start, index, depth, false, text)
            == ReadFrom(bytes, limit, start, last + 1, depth, false, text + [DecodeEscape(bytes, index + 1)])
  {
    hide DecodeEscape, SkipDigits;
  }

  /** The digit after an escaped one is skipped only at the very start of the string. */
  lemma Skips(bytes: seq<Byte>, start: nat, index: nat)
    requires start < index && index + 2 < |bytes|
    ensures SkipDigits(bytes, start, index + 1)
         == if index == start + 1 && IsOctal(bytes[index + 2]) then index + 2 else index + 1
  {
  }

  lemma ReadOctal(bytes: seq<Byte>, limit: nat, start: nat, index: nat, depth: nat, text: seq<nat>, digits: seq<Byte>)
    requires start < index && depth > 0 && Legal(Octal(digits))
    requires At(bytes, index, [BACKSLASH] + digits) && index + 1 + |digits| < |bytes| && index + 1 + |digits| - start <= limit
    requires |digits| < 3 ==> !IsOctal(bytes[index + 1 + |digits|])
    ensures ReadFrom(bytes, limit, start, index, depth, false, text)
         == ReadFrom(bytes, limit, start, index + 1 + |digits|, depth, false, text + Reading(Octal(digits), index == start + 1))
  {
    hide SkipDigits, ReadFrom, DigitRun, OctalValue, At, IsOctal, DecodeEscape;
    OctalBytes(bytes, index, digits);
    ReadEscaped(bytes, limit, start, index, depth, text);
    Skips(bytes, start, index);
    var used := if index == start + 1 && |digits| > 1 then 2 else 1;
    ReadDigits(bytes, limit, start, index + 1, depth, text + [OctalValue(digits)], digits, used);
    assert text + [OctalValue(digits)] + digits[used..] == text + Reading(Octal(digits), index == start + 1);
  }

  /** The digits not skipped are read again as text. */
  lemma ReadDigits(bytes: seq<Byte>, limit: nat, start: nat, index: nat, depth: nat, text: seq<nat>, digits: seq<Byte>, used: nat)
    requires start < index && depth > 0 && Legal(Octal(digits)) && used <= |digits|
    requires At(bytes, index, digits) && index + |digits| - start <= limit
    ensures ReadFrom(bytes, limit, start, index + used, depth, false, text)
         == ReadFrom(bytes, limit, start, index + |digits|, depth, false, text + digits[used..])
  {
    hide ReadFrom, At;
    assert digits == digits[..used] + digits[used..];
    AtParts(bytes, index, digits[..used], digits[used..]);
    DigitsOrdinary(digits);
    ReadOrdinary(bytes, limit, start, index + used, depth, text, digits[used..]);
  }

  lemma DigitsOrdinary(digits: seq<Byte>)
    requires Legal(Octal(digits))
    ensures forall i :: 0 <= i < |digits| ==> digits[i] != BACKSLASH && digits[i] != OPEN && digits[i] != CLOSE
  {
  }

  /** The bytes of a written octal escape, as the reader meets them. */
  lemma OctalBytes(bytes: seq<Byte>, index: nat, digits: seq<Byte>)
    requires Legal(Octal(digits)) && At(bytes, index, [BACKSLASH] + digits) && index + 1 + |digits| < |bytes|
    requires |digits| < 3 ==> !IsOctal(bytes[index + 1 + |digits|])
    ensures bytes[index] == BACKSLASH && At(bytes, index + 1, digits)
    ensures IsOctal(bytes[index + 1]) && IsOctal(bytes[index + 2]) == (|digits| > 1)
    ensures DecodeEscape(bytes, index + 1) == OctalValue(digits)
  {
    hide OctalValue, DigitRun;
    AtParts(bytes, index, [BACKSLASH], digits);
    AtByte(bytes, index, [BACKSLASH], 0);
    AtByte(bytes, index + 1, digits, 0);
    if |digits| > 1 {
      AtByte(bytes, index + 1, digits, 1);
    }
    RunIs(bytes, index + 1, digits, 3);
  }

  lemma ReadEscape(bytes: seq<Byte>, limit: nat, start: nat, index: nat, depth: nat, text: seq<nat>, b: Byte)
    requires start < index && depth > 0 && !IsOctal(b)
    requires At(bytes, index, [BACKSLASH, b]) && index + 2 - start <= limit
    ensures ReadFrom(bytes, limit, start, index, depth, false, text)
         == ReadFrom(bytes, limit, start, index + 2, depth, false, text + [Named(b)])
  {
    hide ReadFrom, Named;
    AtByte(bytes, index, [BACKSLASH, b], 0);
    AtByte(bytes, index, [BACKSLASH, b], 1);
    ReadEscaped(bytes, limit, start, index, depth, text);
  }

  lemma ReadBare(bytes: seq<Byte>, limit: nat, start: nat, index: nat, depth: nat, text: seq<nat>, b: Byte)
    requires start < index && depth > 0 && Legal(Bare(b)) && Depth(Bare(b), depth - 1) >= 0
    requires At(bytes, index, [b]) && index + 1 - start <= limit
    ensures ReadFrom(bytes, limit, start, index, depth, false, text)
         == ReadFrom(bytes, limit, start, index + 1, Depth(Bare(b), depth - 1) + 1, false, text + [b as nat])
  {
    AtByte(bytes, index, [b], 0);
  }

  lemma ReadContinuation(bytes: seq<Byte>, limit: nat, start: nat, index: nat, depth: nat, text: seq<nat>, eol: seq<Byte>)
    requires start < index && depth > 0 && IsEol(eol)
    requires At(bytes, index, [BACKSLASH] + eol) && index + 1 + |eol| - start <= limit
    ensures ReadFrom(bytes, limit, start, index, depth, false, text)
         == ReadFrom(bytes, limit, start, index + 1 + |eol|, depth, false, text + eol)
  {
    hide ReadFrom;
    assert [BACKSLASH] + eol == [BACKSLASH, eol[0]] + eol[1..];
    AtParts(bytes, index, [BACKSLASH, eol[0]], eol[1..]);
    ReadEscape(bytes, limit, start, index, depth, text, eol[0]);
    ReadOrdinary(bytes, limit, start, index + 2, depth, text + [eol[0] as nat], eol[1..]);
    assert text + [eol[0] as nat] + eol[1..] == text + eol;
  }

  /** One written piece is read as `Reading` says. */
  lemma ReadPiece(bytes: seq<Byte>, limit: nat, start: nat, index: nat, depth: nat, text: seq<nat>, p: Piece)
    requires start < index && depth > 0 && Legal(p) && Depth(p, depth - 1) >= 0
    requires At(bytes, index, Print(p)) && index + |Print(p)| < |bytes| && index + |Print(p)| - start <= limit
    requires p.Octal? && |p.digits| < 3 ==> !IsOctal(bytes[index + |Print(p)|])
    ensures ReadFrom(bytes, limit, start, index, depth, false, text)
         == ReadFrom(bytes, limit, start, index + |Print(p)|, Depth(p, depth - 1) + 1, false, text + Reading(p, index == start + 1))
  {
    hide ReadFrom, Named, At, OctalValue;
    match p
    case Bare(b) => ReadBare(bytes, limit, start, index, depth, text, b);
    case Escape(b) => ReadEscape(bytes, limit, start, index, depth, text, b);
    case Octal(digits) => ReadOctal(bytes, limit, start, index, depth, text, digits);
    case LineEnd(eol) => ReadOrdinary(bytes, limit, start, index, depth, text, eol);
    case Continuation(eol) => ReadContinuation(bytes, limit, start, index, depth, text, eol);
  }

  lemma ReadClose(bytes: seq<Byte>, limit: nat, start: nat, index: nat, text: seq<nat>)
    requires start < index && At(bytes, index, [CLOSE]) && index - start <= limit
    ensures ReadFrom(bytes, limit, start, index, 1, false, text) == Some(Read(text, index))
  {
    AtByte(bytes, index, [CLOSE], 0);
  }

  lemma {:induction false} ReadPieces(bytes: seq<Byte>, limit: nat, start: nat, index: nat, depth: nat, text: seq<nat>, pieces: seq<Piece>)
    requires start < index && depth > 0 && WellWritten(pieces, depth - 1)
    requires At(bytes, index, PrintAll(pieces) + [CLOSE]) && index + |PrintAll(pieces)| - start <= limit
    ensures AllLegal(pieces)
    ensures ReadFrom(bytes, limit, start, index, depth, false, text)
         == Some(Read(text + ReadingOf(pieces, index == start + 1), index + |PrintAll(pieces)|))
    decreases |pieces|
  {
    hide Reading, Print, IsOctal, ReadFrom, At, Legal;
    WellWrittenLegal(pieces, depth - 1);
    if pieces == [] {
      assert PrintAll(pieces) + [CLOSE] == [CLOSE];
      ReadClose(bytes, limit, start, index, text);
      assert text + [] == text;
    } else {
      var p, rest := pieces[0], pieces[1..];
      var tail := PrintAll(rest) + [CLOSE];
      assert PrintAll(pieces) + [CLOSE] == Print(p) + tail;
      AtParts(bytes, index, Print(p), tail);
      AtByte(bytes, index + |Print(p)|, tail, 0);
      ReadPiece(bytes, limit, start, index, depth, text, p);
      PrintNotEmpty(p);
      ReadPieces(bytes, limit, start, index + |Print(p)|, Depth(p, depth - 1) + 1, text + Reading(p, index == start + 1), rest);
      assert text + Reading(p, index == start + 1) + ReadingOf(rest, false) == text + ReadingOf(pieces, index == start + 1);
    }
  }

  lemma PrintNotEmpty(p: Piece)
    requires Legal(p)
    ensures Print(p) != []
  {
  }

  /** A smaller limit changes nothing but to cut off strings that end beyond it. */
  lemma {:induction false} LimitOnlyCuts(bytes: seq<Byte>, limit: nat, wide: nat, start: nat, index: nat, depth: nat, escaped: bool, text: seq<nat>)
    requires start < index && depth > 0 && limit <= wide
    requires ReadFrom(bytes, wide, start, index, depth, escaped, text).Some?
    ensures var r := ReadFrom(bytes, wide, start, index, depth, escaped, text);
            && index <= r.value.endIndex < |bytes|
            && ReadFrom(bytes, limit, start, index, depth, escaped, text) == if r.value.endIndex - start <= limit then r else None
    decreases |bytes| - index
  {
    var value := bytes[index];
    if escaped {
      var last := if IsOctal(value) then SkipDigits(bytes, start, index) else index;
      LimitOnlyCuts(bytes, limit, wide, start, last + 1, depth, false, text + [DecodeEscape(bytes, index)]);
    } else if value == BACKSLASH {
      LimitOnlyCuts(bytes, limit, wide, start, index + 1, depth, true, text);
    } else if value == OPEN {
      LimitOnlyCuts(bytes, limit, wide, start, index + 1, depth + 1, false, text + [OPEN as nat]);
    } else if value != CLOSE {
      LimitOnlyCuts(bytes, limit, wide, start, index + 1, depth, false, text + [value as nat]);
    } else if depth > 1 {
      LimitOnlyCuts(bytes, limit, wide, start, index + 1, depth - 1, false, text + [CLOSE as nat]);
    }
  }

  /** What the source reads from an opening parenthesis on. */
  function LiteralAt(bytes: seq<Byte>, start: nat): Option<Read> {
    ReadFrom(bytes, MAX_STRING_BYTES, start, start + 1, 1, false, [])
  }

  function Literal(pieces: seq<Piece>): seq<Byte> {
    [OPEN] + PrintAll(pieces) + [CLOSE]
  }

  /**
   Any string written as the standard allows, wherever it stands, is read to its own closing
   parenthesis, or not at all when it is longer than the limit.
   */
  lemma ReadsWritten(bytes: seq<Byte>, start: nat, pieces: seq<Piece>)
    requires WellWritten(pieces, 0) && At(bytes, start, Literal(pieces))
    ensures AllLegal(pieces)
    ensures LiteralAt(bytes, start) ==
            if |PrintAll(pieces)| + 1 <= MAX_STRING_BYTES
            then Some(Read(ReadingOf(pieces, true), start + 1 + |PrintAll(pieces)|))
            else None
  {
    hide WellWritten, PrintAll, ReadFrom, At;
    var inside := PrintAll(pieces) + [CLOSE];
    AtFits(bytes, start, Literal(pieces));
    assert Literal(pieces) == [OPEN] + inside;
    AtParts(bytes, start, [OPEN], inside);
    var wide := MAX_STRING_BYTES + |bytes|;
    ReadPieces(bytes, wide, start, start + 1, 1, [], pieces);
    LimitOnlyCuts(bytes, MAX_STRING_BYTES, wide, start, start + 1, 1, false, []);
    assert [] + ReadingOf(pieces, true) == ReadingOf(pieces, true);
  }

  // ---- when the text read is the text meant ----

  lemma ShortOctal(digits: seq<Byte>)
    requires Legal(Octal(digits)) && |digits| <= 2
    ensures OctalValue(digits) < 256
  {
    assert digits[..|digits| - 1] == if |digits| == 1 then [] else [digits[0]];
    if |digits| == 2 {
      assert [digits[0]][..0] == [];
      assert OctalValue([digits[0]]) == OctalDigit(digits[0]);
    }
  }

  lemma ReadingOrMeaning(p: Piece, first: bool)
    requires Legal(p)
    ensures |Reading(p, first)| >= |Meaning(p)|
    ensures Reading(p, first) == Meaning(p) <==> Understood(p, first)
  {
    match p
    case Octal(digits) =>
      if |digits| <= 2 {
        ShortOctal(digits);
      }
    case LineEnd(eol) =>
    case Continuation(eol) =>
    case Bare(b) =>
    case Escape(b) =>
  }

  lemma {:induction false} TextsCompare(pieces: seq<Piece>, first: bool)
    requires AllLegal(pieces)
    ensures |ReadingOf(pieces, first)| >= |MeaningOf(pieces)|
    ensures ReadingOf(pieces, first) == MeaningOf(pieces)
       <==> forall i :: 0 <= i < |pieces| ==> Understood(pieces[i], first && i == 0)
    decreases |pieces|
  {
    hide Reading, Meaning, Understood, Legal;
    if pieces != [] {
      var p, rest := pieces[0], pieces[1..];
      ReadingOrMeaning(p, first);
      TextsCompare(rest, false);
      var a, b := Reading(p, first) + ReadingOf(rest, false), Meaning(p) + MeaningOf(rest);
      if a == b {
        assert a[..|Meaning(p)|] == Meaning(p) && |Reading(p, first)| == |Meaning(p)|;
        assert a[|Meaning(p)|..] == MeaningOf(rest);
      }
      assert forall i :: 1 <= i < |pieces| ==> pieces[i] == rest[i - 1];
    }
  }

  /**
   A string within the limit is read as the standard means it if and only if it has no line
   continuation, no line end other than a line feed, and no octal escape of more than one digit
   save a two-digit one at the very start.
   */
  lemma ReadsAsMeant(bytes: seq<Byte>, start: nat, pieces: seq<Piece>)
    requires WellWritten(pieces, 0) && At(bytes, start, Literal(pieces)) && |PrintAll(pieces)| + 1 <= MAX_STRING_BYTES
    ensures AllLegal(pieces)
    ensures LiteralAt(bytes, start) == Some(Read(MeaningOf(pieces), start + 1 + |PrintAll(pieces)|)) <==> AllUnderstood(pieces)
  {
    ReadsWritten(bytes, start, pieces);
    TextsCompare(pieces, true);
  }

  /** The octal escape of `a` between two letters: the reader returns it followed by its last two digits. */
  lemma OctalMisread()
    ensures LiteralAt([OPEN, 0x78, BACKSLASH, 0x31, 0x34, 0x31, 0x79, CLOSE], 0) == Some(Read([0x78, 0x61, 0x34, 0x31, 0x79], 7))
    ensures Meaning(Octal([0x31, 0x34, 0x31])) == [0x61]
  {
    hide ReadFrom;
    var bytes: seq<Byte> := [OPEN, 0x78, BACKSLASH, 0x31, 0x34, 0x31, 0x79, CLOSE];
    var digits: seq<Byte> := [0x31, 0x34, 0x31];
    assert digits[..2] == [0x31, 0x34] && [0x31, 0x34][..1] == [0x31] && [0x31][..0] == [];
    assert OctalValue([0x31]) == 1 && OctalValue([0x31, 0x34]) == 12;
    assert OctalValue(digits) == 0x61;
    assert bytes[1..1 + 1] == [0x78] && bytes[2..2 + 4] == [BACKSLASH] + digits && bytes[6..6 + 1] == [0x79];
    ReadBare(bytes, MAX_STRING_BYTES, 0, 1, 1, [], 0x78);
    ReadOctal(bytes, MAX_STRING_BYTES, 0, 2, 1, [0x78], digits);
    assert [0x78] + Reading(Octal(digits), false) == [0x78, 0x61, 0x34, 0x31];
    ReadBare(bytes, MAX_STRING_BYTES, 0, 6, 1, [0x78, 0x61, 0x34, 0x31], 0x79);
    assert bytes[7..7 + 1] == [CLOSE];
    ReadClose(bytes, MAX_STRING_BYTES, 0, 7, [0x78, 0x61, 0x34, 0x31, 0x79]);
    assert [] + [0x78] == [0x78] && [0x78, 0x61, 0x34, 0x31] + [0x79] == [0x78, 0x61, 0x34, 0x31, 0x79];
  }

  // ---- any text can be written so that it is read back ----

  function WrittenByte(b: Byte): (p: Piece)
    ensures Legal(p) && Understood(p, false) && Meaning(p) == [b as nat] && !p.Octal? && !p.LineEnd? && |Print(p)| <= 2
    ensures p != Bare(OPEN) && p != Bare(CLOSE)
  {
    if b == OPEN || b == CLOSE || b == BACKSLASH then Escape(b)
    else if b == CR then Escape(0x72)
    else if b == LF then Escape(0x6e)
    else Bare(b)
  }

  function Written(text: seq<Byte>): seq<Piece> {
    seq(|text|, i requires 0 <= i < |text| => WrittenByte(text[i]))
  }

  lemma {:induction false} WrittenMeans(text: seq<Byte>)
    ensures WellWritten(Written(text), 0) && AllLegal(Written(text)) && MeaningOf(Written(text)) == text
    ensures AllUnderstood(Written(text)) && |PrintAll(Written(text))| <= 2 * |text|
  {
    hide Legal, Meaning, Print, WrittenByte, IsOctal;
    if text != [] {
      WrittenMeans(text[1..]);
      assert Written(text)[1..] == Written(text[1..]);
      assert text == [text[0]] + text[1..];
    }
  }

  /** The round trip: every byte string, written with escapes and closed within the limit, reads back. */
  lemma RoundTrip(text: seq<Byte>, before: seq<Byte>, after: seq<Byte>)
    requires |PrintAll(Written(text))| + 1 <= MAX_STRING_BYTES
    ensures var bytes := before + Literal(Written(text)) + after;
            LiteralAt(bytes, |before|) == Some(Read(text, |before| + |Literal(Written(text))| - 1))
  {
    hide WellWritten, Written;
    var pieces := Written(text);
    var bytes := before + Literal(pieces) + after;
    assert bytes[|before|..|before| + |Literal(pieces)|] == Literal(pieces);
    WrittenMeans(text);
    ReadsAsMeant(bytes, |before|, pieces);
  }

  // ---- all the strings of a stream ----

  predicate IsAlphanumeric(c: nat) {
    0x41 <= c <= 0x5a || 0x61 <= c <= 0x7a || 0x30 <= c <= 0x39
  }

  predicate HasAlphanumeric(text: seq<nat>) {
    exists i :: 0 <= i < |text| && IsAlphanumeric(text[i])
  }

  function Readable(texts: seq<seq<nat>>): seq<seq<nat>> {
    if texts == [] then []
    else (if HasAlphanumeric(texts[0]) then [texts[0]] else []) + Readable(texts[1..])
  }

  lemma {:induction false} LiteralEnds(bytes: seq<Byte>, limit: nat, start: nat, index: nat, depth: nat, escaped: bool, text: seq<nat>)
    requires start < index && depth > 0
    ensures var r := ReadFrom(bytes, limit, start, index, depth, escaped, text); r.Some? ==> index <= r.value.endIndex < |bytes|
    decreases |bytes| - index
  {
    var r := ReadFrom(bytes, limit, start, index, depth, escaped, text);
    if r.Some? {
      LimitOnlyCuts(bytes, limit, limit, start, index, depth, escaped, text);
    }
  }

  function StringsFrom(bytes: seq<Byte>, index: nat): seq<seq<nat>>
    decreases |bytes| - index
  {
    if index >= |bytes| then []
    else if bytes[index] != OPEN then StringsFrom(bytes, index + 1)
    else
      var result := LiteralAt(bytes, index);
      if result.None? then StringsFrom(bytes, index + 1)
      else
        LiteralEnds(bytes, MAX_STRING_BYTES, index, index + 1, 1, false, []);
        [result.value.text] + StringsFrom(bytes, result.value.endIndex + 1)
  }

  method ExtractLiteralStrings(bytes: seq<Byte>) returns (strings: seq<seq<nat>>)
    ensures strings == Readable(StringsFrom(bytes, 0))
  {
    strings := [];
    var index := 0;
    while index < |bytes|
      invariant strings + StringsFrom(bytes, index) == StringsFrom(bytes, 0)
      decreases |bytes| - index
    {
      if bytes[index] == OPEN {
        var result := ReadLiteralString(bytes, index);
        if result.Some? {
          strings := strings + [result.value.text];
          index := result.value.endIndex;
        }
      }
      index := index + 1;
    }
    assert strings == StringsFrom(bytes, 0);
    return Readable(strings);
  }

  /** Strings of a stream, each with the bytes before it, none of which opens a string. */
  datatype Shown = Shown(gap: seq<Byte>, pieces: seq<Piece>)

  function Stream(shown: seq<Shown>, tail: seq<Byte>): seq<Byte> {
    if shown == [] then tail else shown[0].gap + (Literal(shown[0].pieces) + Stream(shown[1..], tail))
  }

  ghost predicate CleanStream(shown: seq<Shown>, tail: seq<Byte>) {
    && OPEN !in tail
    && forall i :: 0 <= i < |shown| ==>
         && OPEN !in shown[i].gap && WellWritten(shown[i].pieces, 0) && AllLegal(shown[i].pieces)
         && AllUnderstood(shown[i].pieces) && |PrintAll(shown[i].pieces)| + 1 <= MAX_STRING_BYTES
  }

  function Texts(shown: seq<Shown>): seq<seq<nat>>
    requires forall i :: 0 <= i < |shown| ==> AllLegal(shown[i].pieces)
  {
    seq(|shown|, i requires 0 <= i < |shown| => MeaningOf(shown[i].pieces))
  }

  lemma {:induction false} SkipGap(bytes: seq<Byte>, index: nat, gap: seq<Byte>)
    requires At(bytes, index, gap) && OPEN !in gap
    ensures StringsFrom(bytes, index) == StringsFrom(bytes, index + |gap|)
    decreases |gap|
  {
    if gap != [] {
      AtByte(bytes, index, gap, 0);
      assert gap == [gap[0]] + gap[1..];
      AtParts(bytes, index, [gap[0]], gap[1..]);
      SkipGap(bytes, index + 1, gap[1..]);
    }
  }

  lemma NoStrings(bytes: seq<Byte>)
    ensures StringsFrom(bytes, |bytes|) == []
  {
  }

  lemma StringRead(bytes: seq<Byte>, at: nat, pieces: seq<Piece>)
    requires At(bytes, at, Literal(pieces)) && WellWritten(pieces, 0) && AllLegal(pieces) && AllUnderstood(pieces)
    requires |PrintAll(pieces)| + 1 <= MAX_STRING_BYTES
    ensures StringsFrom(bytes, at) == [MeaningOf(pieces)] + StringsFrom(bytes, at + |Literal(pieces)|)
  {
    hide WellWritten, AllUnderstood, AllLegal, LiteralAt, PrintAll, MeaningOf;
    AtByte(bytes, at, Literal(pieces), 0);
    ReadsAsMeant(bytes, at, pieces);
  }

  lemma {:induction false} StringsOfStream(bytes: seq<Byte>, index: nat, shown: seq<Shown>, tail: seq<Byte>)
    requires CleanStream(shown, tail) && At(bytes, index, Stream(shown, tail)) && index + |Stream(shown, tail)| == |bytes|
    ensures StringsFrom(bytes, index) == Texts(shown)
    decreases |shown|
  {
    hide WellWritten, AllUnderstood, AllLegal, PrintAll, MeaningOf, StringsFrom;
    if shown == [] {
      SkipGap(bytes, index, tail);
      NoStrings(bytes);
    } else {
      var gap, literal, rest := shown[0].gap, Literal(shown[0].pieces), Stream(shown[1..], tail);
      AtParts(bytes, index, gap, literal + rest);
      SkipGap(bytes, index, gap);
      var at := index + |gap|;
      AtParts(bytes, at, literal, rest);
      StringRead(bytes, at, shown[0].pieces);
      StringsOfStream(bytes, at + |literal|, shown[1..], tail);
      assert Texts(shown) == [MeaningOf(shown[0].pieces)] + Texts(shown[1..]);
    }
  }

  /** Every alphanumeric-bearing string of a stream is extracted, in order, and nothing else. */
  lemma ExtractsEveryString(shown: seq<Shown>, tail: seq<Byte>)
    requires CleanStream(shown, tail)
    ensures Readable(StringsFrom(Stream(shown, tail), 0)) == Readable(Texts(shown))
  {
    var bytes := Stream(shown, tail);
    assert bytes[0..0 + |bytes|] == bytes;
    StringsOfStream(bytes, 0, shown, tail);
  }

  /** The escapes of the standard: n, r, t, b and f name control characters, every other byte itself. */
  lemma EscapesAre(b: Byte)
    ensures Named('n' as Byte) == '\n' as nat && Named('r' as Byte) == '\r' as nat && Named('t' as Byte) == '\t' as nat
    ensures Named('b' as Byte) == 8 && Named('f' as Byte) == 12
    ensures b as int as char !in "nrtbf" ==> Named(b) == b as nat
    ensures MAX_STRING_BYTES == 1_000_000
    ensures OPEN == '(' as Byte && CLOSE == ')' as Byte && BACKSLASH == '\\' as Byte && CR == '\r' as Byte && LF == '\n' as Byte
  {
  }

  /** Three octal digits count sixty-fours, eights and ones; as a byte they lose what exceeds 255. */
  lemma OctalIs(x: Byte, y: Byte, z: Byte)
    requires IsOctal(x) && IsOctal(y) && IsOctal(z)
    ensures Legal(Octal([x, y, z]))
    ensures OctalValue([x, y, z]) == 64 * (x as int - 48) + 8 * (y as int - 48) + (z as int - 48)
    ensures Meaning(Octal([x, y, z])) == [OctalValue([x, y, z]) - if x as int >= 52 then 256 else 0]
  {
    OctalSum(x, y, z);
  }

  lemma OctalSum(x: Byte, y: Byte, z: Byte)
    requires IsOctal(x) && IsOctal(y) && IsOctal(z)
    ensures OctalValue([x, y, z]) == 64 * (x as int - 48) + 8 * (y as int - 48) + (z as int - 48)
  {
    assert [x, y, z][..2] == [x, y] && [x, y][..1] == [x] && [x][..0] == [];
    assert OctalValue([]) == 0 && OctalValue([x]) == OctalDigit(x);
    assert OctalValue([x, y]) == 8 * OctalDigit(x) + OctalDigit(y);
  }

  /** Octal digits are the codes of 0 to 7. */
  lemma OctalSign(d: Byte)
    ensures IsOctal(d) <==> d as int as char in "01234567"
  {
    var signs := "01234567";
    assert forall k: nat :: k < 8 ==> signs[k] as nat == 0x30 + k;
    assert 0x30 <= d <= 0x37 ==> signs[d - 0x30] == d as int as char;
  }

  /** Alphanumeric bytes are the codes of letters and digits. */
  lemma BearsExactly(text: seq<nat>)
    ensures HasAlphanumeric(text) <==> exists c: char :: c as nat in text && IsSign(c)
  {
    forall i | 0 <= i < |text| && IsAlphanumeric(text[i]) ensures exists c: char :: c as nat in text && IsSign(c) {
      var c := text[i] as char;
      SignCodes(c);
      assert c as nat in text;
    }
    forall c: char | c as nat in text && IsSign(c) ensures HasAlphanumeric(text) {
      SignCodes(c);
      var i :| 0 <= i < |text| && text[i] == c as nat;
    }
  }

  predicate IsSign(c: char) {
    c in "ABCDEFGHIJKLMNOPQRSTUVWXYZ" || c in "abcdefghijklmnopqrstuvwxyz" || c in "0123456789"
  }

  lemma SignCodes(c: char)
    ensures IsSign(c) <==> IsAlphanumeric(c as nat)
  {
    CapitalCodes(c);
    SmallCodes(c);
    DigitCodes(c);
  }

  lemma CapitalCodes(c: char)
    ensures c in "ABCDEFGHIJKLMNOPQRSTUVWXYZ" <==> 0x41 <= c as nat <= 0x5a
  {
    var signs := "ABCDEFGHIJKLMNOPQRSTUVWXYZ";
    assert forall k: nat :: k < 26 ==> signs[k] as nat == 0x41 + k;
    assert 0x41 <= c as nat <= 0x5a ==> signs[c as nat - 0x41] == c;
  }

  lemma SmallCodes(c: char)
    ensures c in "abcdefghijklmnopqrstuvwxyz" <==> 0x61 <= c as nat <= 0x7a
  {
    var signs := "abcdefghijklmnopqrstuvwxyz";
    assert forall k: nat :: k < 26 ==> signs[k] as nat == 0x61 + k;
    assert 0x61 <= c as nat <= 0x7a ==> signs[c as nat - 0x61] == c;
  }

  lemma DigitCodes(c: char)
    ensures c in "0123456789" <==> 0x30 <= c as nat <= 0x39
  {
    var signs := "0123456789";
    assert forall k: nat :: k < 10 ==> signs[k] as nat == 0x30 + k;
    assert 0x30 <= c as nat <= 0x39 ==> signs[c as nat - 0x30] == c;
  }

  /** What is kept of a stream's strings: each that bears a letter or digit, in order. */
  lemma {:induction false} ReadableNext(texts: seq<seq<nat>>, text: seq<nat>)
    ensures Readable([]) == []
    ensures Readable(texts + [text]) == Readable(texts) + if exists c: char :: c as nat in text && IsSign(c) then [text] else []
  {
    BearsExactly(text);
    if texts == [] {
      assert [text][1..] == [] && [] + [text] == [text];
    } else {
      ReadableNext(texts[1..], text);
      assert (texts + [text])[1..] == texts[1..] + [text];
    }
  }

  // ---- unmatched parentheses ----

  /** Reading balanced pieces inside open parentheses comes back to the depth it started from. */
  lemma {:induction false} ReadInside(bytes: seq<Byte>, limit: nat, start: nat, index: nat, depth: nat, inner: nat, text: seq<nat>,
                                      pieces: seq<Piece>) returns (read: seq<nat>)
    requires start + 1 < index && inner < depth && WellWritten(pieces, inner)
    requires At(bytes, index, PrintAll(pieces) + [CLOSE]) && index + |PrintAll(pieces)| - start <= limit
    ensures ReadFrom(bytes, limit, start, index, depth, false, text)
         == ReadFrom(bytes, limit, start, index + |PrintAll(pieces)|, depth - inner, false, read)
    decreases |pieces|
  {
    hide Reading, Print, IsOctal, ReadFrom, At, Legal;
    if pieces == [] {
      read := text;
    } else {
      var p, rest := pieces[0], pieces[1..];
      var tail := PrintAll(rest) + [CLOSE];
      assert PrintAll(pieces) + [CLOSE] == Print(p) + tail;
      AtParts(bytes, index, Print(p), tail);
      AtByte(bytes, index + |Print(p)|, tail, 0);
      ReadPiece(bytes, limit, start, index, depth, text, p);
      PrintNotEmpty(p);
      read := ReadInside(bytes, limit, start, index + |Print(p)|, Depth(p, depth - 1) + 1, Depth(p, inner),
                         text + Reading(p, false), rest);
    }
  }

  /** Nothing between the strings closes a parenthesis. */
  ghost predicate NoClosers(shown: seq<Shown>, tail: seq<Byte>) {
    && CLOSE !in tail && BACKSLASH !in tail
    && forall i :: 0 <= i < |shown| ==> CLOSE !in shown[i].gap && BACKSLASH !in shown[i].gap
  }

  lemma {:induction false} NeverCloses(bytes: seq<Byte>, limit: nat, start: nat, index: nat, depth: nat, text: seq<nat>,
                                       shown: seq<Shown>, tail: seq<Byte>)
    requires start < index && depth > 0 && |bytes| <= limit && CleanStream(shown, tail) && NoClosers(shown, tail)
    requires At(bytes, index, Stream(shown, tail)) && index + |Stream(shown, tail)| == |bytes|
    ensures ReadFrom(bytes, limit, start, index, depth, false, text).None?
    decreases |shown|
  {
    hide WellWritten, AllUnderstood, AllLegal, PrintAll, ReadFrom, At;
    if shown == [] {
      ReadOrdinary(bytes, limit, start, index, depth, text, tail);
      AtTheEnd(bytes, limit, start, depth, text + tail);
    } else {
      var gap, pieces, rest := shown[0].gap, shown[0].pieces, Stream(shown[1..], tail);
      AtParts(bytes, index, gap, Literal(pieces) + rest);
      ReadOrdinary(bytes, limit, start, index, depth, text, gap);
      var at := index + |gap|;
      AtParts(bytes, at, Literal(pieces), rest);
      var read := ReadNested(bytes, limit, start, at, depth, text + gap, pieces);
      NeverCloses(bytes, limit, start, at + |Literal(pieces)|, depth, read, shown[1..], tail);
    }
  }

  lemma AtTheEnd(bytes: seq<Byte>, limit: nat, start: nat, depth: nat, text: seq<nat>)
    requires start < |bytes| && depth > 0
    ensures ReadFrom(bytes, limit, start, |bytes|, depth, false, text).None?
  {
  }

  /** A whole string inside another leaves the depth as it was. */
  lemma ReadNested(bytes: seq<Byte>, limit: nat, start: nat, at: nat, depth: nat, text: seq<nat>, pieces: seq<Piece>)
    returns (read: seq<nat>)
    requires start < at && depth > 0 && |bytes| <= limit && WellWritten(pieces, 0) && At(bytes, at, Literal(pieces))
    ensures ReadFrom(bytes, limit, start, at, depth, false, text)
         == ReadFrom(bytes, limit, start, at + |Literal(pieces)|, depth, false, read)
  {
    hide WellWritten, PrintAll, ReadFrom, At;
    AtFits(bytes, at, Literal(pieces));
    var inside := PrintAll(pieces) + [CLOSE];
    assert Literal(pieces) == [OPEN] + inside;
    AtParts(bytes, at, [OPEN], inside);
    ReadBare(bytes, limit, start, at, depth, text, OPEN);
    var within := ReadInside(bytes, limit, start, at + 1, depth + 1, 0, text + [OPEN as nat], pieces);
    AtParts(bytes, at + 1, PrintAll(pieces), [CLOSE]);
    ReadBare(bytes, limit, start, at + 1 + |PrintAll(pieces)|, depth + 1, within, CLOSE);
    read := within + [CLOSE as nat];
  }

  lemma {:induction false} WiderReads(bytes: seq<Byte>, limit: nat, wide: nat, start: nat)
    requires limit <= wide && ReadFrom(bytes, wide, start, start + 1, 1, false, []).None?
    ensures ReadFrom(bytes, limit, start, start + 1, 1, false, []).None?
  {
    if ReadFrom(bytes, limit, start, start + 1, 1, false, []).Some? {
      NarrowerReads(bytes, limit, wide, start, start + 1, 1, false, []);
    }
  }

  lemma {:induction false} NarrowerReads(bytes: seq<Byte>, limit: nat, wide: nat, start: nat, index: nat, depth: nat, escaped: bool,
                                         text: seq<nat>)
    requires start < index && depth > 0 && limit <= wide
    requires ReadFrom(bytes, limit, start, index, depth, escaped, text).Some?
    ensures ReadFrom(bytes, wide, start, index, depth, escaped, text) == ReadFrom(bytes, limit, start, index, depth, escaped, text)
    decreases |bytes| - index
  {
    var value := bytes[index];
    if escaped {
      var last := if IsOctal(value) then SkipDigits(bytes, start, index) else index;
      NarrowerReads(bytes, limit, wide, start, last + 1, depth, false, text + [DecodeEscape(bytes, index)]);
    } else if value == BACKSLASH {
      NarrowerReads(bytes, limit, wide, start, index + 1, depth, true, text);
    } else if value == OPEN {
      NarrowerReads(bytes, limit, wide, start, index + 1, depth + 1, false, text + [OPEN as nat]);
    } else if value != CLOSE {
      NarrowerReads(bytes, limit, wide, start, index + 1, depth, false, text + [value as nat]);
    } else if depth > 1 {
      NarrowerReads(bytes, limit, wide, start, index + 1, depth - 1, false, text + [CLOSE as nat]);
    }
  }

  /** Any number of unmatched opening parentheses. */
  function Opens(count: nat): seq<Byte> {
    seq(count, _ => OPEN)
  }

  lemma {:induction false} OpensSkipped(bytes: seq<Byte>, index: nat, count: nat, shown: seq<Shown>, tail: seq<Byte>)
    requires CleanStream(shown, tail) && NoClosers(shown, tail)
    requires At(bytes, index, Opens(count) + Stream(shown, tail)) && index + count + |Stream(shown, tail)| == |bytes|
    ensures StringsFrom(bytes, index) == Texts(shown)
    decreases count
  {
    hide CleanStream, NoClosers, At, ReadFrom;
    if count == 0 {
      assert Opens(0) + Stream(shown, tail) == Stream(shown, tail);
      StringsOfStream(bytes, index, shown, tail);
    } else {
      var rest := Opens(count - 1) + Stream(shown, tail);
      assert Opens(count) + Stream(shown, tail) == [OPEN] + rest;
      AtParts(bytes, index, [OPEN], rest);
      AtByte(bytes, index, [OPEN], 0);
      var wide := MAX_STRING_BYTES + |bytes|;
      DeeperNeverCloses(bytes, wide, index, index + 1, 1, count - 1, [], shown, tail);
      WiderReads(bytes, MAX_STRING_BYTES, wide, index);
      OpensSkipped(bytes, index + 1, count - 1, shown, tail);
    }
  }

  lemma {:induction false} DeeperNeverCloses(bytes: seq<Byte>, limit: nat, start: nat, index: nat, depth: nat, count: nat,
                                             text: seq<nat>, shown: seq<Shown>, tail: seq<Byte>)
    requires start < index && depth > 0 && |bytes| <= limit && CleanStream(shown, tail) && NoClosers(shown, tail)
    requires At(bytes, index, Opens(count) + Stream(shown, tail)) && index + count + |Stream(shown, tail)| == |bytes|
    ensures ReadFrom(bytes, limit, start, index, depth, false, text).None?
    decreases count
  {
    hide CleanStream, NoClosers, At, ReadFrom;
    if count == 0 {
      assert Opens(0) + Stream(shown, tail) == Stream(shown, tail);
      NeverCloses(bytes, limit, start, index, depth, text, shown, tail);
    } else {
      var rest := Opens(count - 1) + Stream(shown, tail);
      assert Opens(count) + Stream(shown, tail) == [OPEN] + rest;
      AtParts(bytes, index, [OPEN], rest);
      ReadBare(bytes, limit, start, index, depth, text, OPEN);
      DeeperNeverCloses(bytes, limit, start, index + 1, depth + 1, count - 1, text + [OPEN as nat], shown, tail);
    }
  }

  /** Opening parentheses that are never closed lose none of the strings after them. */
  lemma UnmatchedLoseNothing(count: nat, shown: seq<Shown>, tail: seq<Byte>)
    requires CleanStream(shown, tail) && NoClosers(shown, tail)
    ensures StringsFrom(Opens(count) + Stream(shown, tail), 0) == Texts(shown)
  {
    var bytes := Opens(count) + Stream(shown, tail);
    assert bytes[0..0 + |bytes|] == bytes;
    OpensSkipped(bytes, 0, count, shown, tail);
  }
}
