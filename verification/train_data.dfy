/** Conversion of the text records of a training chunk into samples: each
    record is five lines (two bitboards, the side to move, 65 move
    probabilities, the winner); a record becomes planes, a policy vector and
    a value, all under one board symmetry, or it is skipped (a NaN
    probability) or it fails (malformed text, which raises in the worker). */
module TrainData {

  import opened Wrappers
  import Text
  import Bitboard
  import opened Symmetry

  /** 2 bitboards, 1 side to move, 1 line of 65 probabilities, 1 winner. */
  const RecordLines: nat := 5
  /** 64 squares and pass. */
  const PolicySize: nat := 65
  /** The side-to-move planes are built 361 entries long before the
      symmetry cuts them to 64. */
  const StmPlaneSize: nat := 361

  /** What the float parser makes of one token of text. */
  datatype Token = Num(value: real) | Inf(positive: bool) | NaN | Bad

  predicate IsNumber(t: Token) {
    t.Num? || t.Inf?
  }

  /** The exception that ends a conversion, in the order they are checked. */
  datatype DecodeError =
    | NotAscii                  // a line of the record holds a byte of 0x80 or more
    | BadBitboard(plane: nat)   // a bitboard line is not a base-16 number
    | MissingSideToMove         // the side-to-move line is empty
    | BadSideToMove             // the side-to-move digit is neither 0 nor 1
    | BadProbability            // a probability token is not a float
    | WrongProbabilityCount     // the probability line does not hold 65 floats
    | BadWinner                 // the winner line is not a float
    | WinnerNotUnit             // the winner is neither 1.0 nor -1.0

  datatype Sample = Sample(planes: seq<seq<real>>, probabilities: seq<Token>, winner: seq<real>)

  datatype Conversion = Converted(sample: Sample) | Skipped | Failed(error: DecodeError)

  /** The float tokens of the probability line. */
  function Tokens(line: string, floatOf: string -> Token): (ts: seq<Token>)
    ensures |ts| == |Text.Split(line)|
  {
    var words := Text.Split(line);
    seq(|words|, i requires 0 <= i < |words| => floatOf(words[i]))
  }

  /** Index of the first token that is not a number, or the length. */
  function FirstNonNumber(ts: seq<Token>): (i: nat)
    ensures i <= |ts|
    ensures forall j :: 0 <= j < i ==> IsNumber(ts[j])
    ensures i < |ts| ==> !IsNumber(ts[i])
  {
    if ts == [] || !IsNumber(ts[0]) then 0 else 1 + FirstNonNumber(ts[1..])
  }

  /** The two uniform side-to-move planes: ones then zeros for '0', zeros
      then ones otherwise. */
  function StmPlanes(stm: char): (planes: seq<seq<real>>)
    ensures |planes| == 2 && |planes[0]| == |planes[1]| == StmPlaneSize
  {
    var ones := seq(StmPlaneSize, _ => 1.0);
    var zeros := seq(StmPlaneSize, _ => 0.0);
    if stm == '0' then [ones, zeros] else [zeros, ones]
  }

  /** Every plane is rebuilt square by square under one symmetry. */
  predicate PlanesWide(planes: seq<seq<real>>) {
    forall i :: 0 <= i < |planes| ==> |planes[i]| >= NumSquares
  }

  /** Every plane and the policy vector under one symmetry; the value is
      left as it is. */
  function Augment(planes: seq<seq<real>>, probabilities: seq<Token>, winner: seq<real>, s: int): (x: Sample)
    requires IsSymmetry(s) && PlanesWide(planes) && |probabilities| >= NumSquares
    ensures |x.planes| == |planes| && PlanesWide(x.planes) && |x.probabilities| >= NumSquares
    ensures forall i :: 0 <= i < |planes| ==> x.planes[i] == ApplySymmetry(planes[i], s)
    ensures x.probabilities == ApplySymmetry(probabilities, s) && x.winner == winner
  {
    Sample(seq(|planes|, i requires 0 <= i < |planes| => ApplySymmetry(planes[i], s)),
           ApplySymmetry(probabilities, s), winner)
  }

  /** Augmenting the identity-augmented tensors by s is augmenting by s. */
  lemma AugmentAfterIdentity(planes: seq<seq<real>>, probabilities: seq<Token>, winner: seq<real>, s: int)
    requires IsSymmetry(s) && PlanesWide(planes) && |probabilities| >= NumSquares
    ensures var x := Augment(planes, probabilities, winner, 0);
      Augment(x.planes, x.probabilities, x.winner, s) == Augment(planes, probabilities, winner, s)
  {
    var x := Augment(planes, probabilities, winner, 0);
    var y := Augment(x.planes, x.probabilities, x.winner, s);
    forall i | 0 <= i < |planes|
      ensures y.planes[i] == ApplySymmetry(planes[i], s)
    {
      ApplyAfterIdentity(planes[i], s);
    }
    ApplyAfterIdentity(probabilities, s);
  }

  /** Augmenting by s and then by its inverse is augmenting by the identity. */
  lemma AugmentInverse(planes: seq<seq<real>>, probabilities: seq<Token>, winner: seq<real>, s: int)
    requires IsSymmetry(s) && PlanesWide(planes) && |probabilities| >= NumSquares
    ensures var x := Augment(planes, probabilities, winner, s);
      Augment(x.planes, x.probabilities, x.winner, InverseSymmetry(s)) == Augment(planes, probabilities, winner, 0)
  {
    var x := Augment(planes, probabilities, winner, s);
    var y := Augment(x.planes, x.probabilities, x.winner, InverseSymmetry(s));
    forall i | 0 <= i < |planes|
      ensures y.planes[i] == ApplySymmetry(planes[i], 0)
    {
      ApplyInverseReduced(planes[i], s);
    }
    ApplyInverseReduced(probabilities, s);
  }

  /** The bitboards decode and the side-to-move line starts with 0 or 1. */
  predicate HeaderValid(item: seq<string>)
    requires |item| >= RecordLines
  {
    && Bitboard.DecodeBitboard(item[0]).Some?
    && Bitboard.DecodeBitboard(item[1]).Some?
    && |item[2]| > 0
    && (item[2][0] == '0' || item[2][0] == '1')
  }

  predicate IsUnitWinner(t: Token) {
    t == Num(1.0) || t == Num(-1.0)
  }

  /** Four planes of 64 squares, 65 numeric probabilities, and a value of
      plus or minus one. */
  predicate WellShaped(x: Sample) {
    && |x.planes| == 4
    && (forall i :: 0 <= i < 4 ==> |x.planes[i]| == NumSquares)
    && |x.probabilities| == PolicySize
    && (forall i :: 0 <= i < PolicySize ==> IsNumber(x.probabilities[i]))
    && (x.winner == [1.0] || x.winner == [-1.0])
  }

  /** A record decoded before any symmetry is applied: the two bitboard
      planes, the side-to-move digit, the probability tokens and the value. */
  datatype Decoded =
    | Raw(first: seq<real>, second: seq<real>, stm: char, probabilities: seq<Token>, winner: real)
    | Skip
    | Fail(error: DecodeError)

  /** Two 64-square planes, a side to move of 0 or 1, 65 numeric
      probabilities and a unit value. */
  predicate RawShaped(d: Decoded)
    requires d.Raw?
  {
    && |d.first| == NumSquares && |d.second| == NumSquares
    && (d.stm == '0' || d.stm == '1')
    && |d.probabilities| == PolicySize
    && (forall i :: 0 <= i < PolicySize ==> IsNumber(d.probabilities[i]))
    && (d.winner == 1.0 || d.winner == -1.0)
  }

  /** The first three lines of a record, decoded. */
  datatype Header = Header(first: seq<real>, second: seq<real>, stm: char)

  datatype HeaderResult = HeaderOk(header: Header) | HeaderError(error: DecodeError)

  /** The bitboards and the side-to-move digit, checked in that order. */
  function DecodeHeader(item: seq<string>): (r: HeaderResult)
    requires |item| >= RecordLines
    ensures r.HeaderOk? <==> HeaderValid(item)
    ensures r.HeaderError? && r.error.BadBitboard? <==>
      Bitboard.DecodeBitboard(item[0]).None? || Bitboard.DecodeBitboard(item[1]).None?
    ensures r.HeaderOk? ==> r.header == Header(Bitboard.DecodeBitboard(item[0]).value,
                                              Bitboard.DecodeBitboard(item[1]).value, item[2][0])
  {
    var b0 := Bitboard.DecodeBitboard(item[0]);
    var b1 := Bitboard.DecodeBitboard(item[1]);
    if b0.None? then HeaderError(BadBitboard(0))
    else if b1.None? then HeaderError(BadBitboard(1))
    else if |item[2]| == 0 then HeaderError(MissingSideToMove)
    else if item[2][0] != '0' && item[2][0] != '1' then HeaderError(BadSideToMove)
    else HeaderOk(Header(b0.value, b1.value, item[2][0]))
  }

  /** The probability tokens and the value token after a valid header. */
  function DecodeTail(h: Header, tokens: seq<Token>, w: Token): (r: Decoded)
    ensures r.Skip? <==> FirstNonNumber(tokens) < |tokens| && tokens[FirstNonNumber(tokens)] == NaN
    ensures r.Raw? <==> FirstNonNumber(tokens) == |tokens| == PolicySize && IsUnitWinner(w)
    ensures r.Raw? ==> r == Raw(h.first, h.second, h.stm, tokens, w.value)
    ensures r.Fail? ==> !r.error.BadBitboard?
  {
    var k := FirstNonNumber(tokens);
    if k < |tokens| && tokens[k] == NaN then Skip
    else if k < |tokens| then Fail(BadProbability)
    else if |tokens| != PolicySize then Fail(WrongProbabilityCount)
    else if w.Bad? then Fail(BadWinner)
    else if !IsUnitWinner(w) then Fail(WinnerNotUnit)
    else Raw(h.first, h.second, h.stm, tokens, w.value)
  }

  /** A line of bytes, each byte a character, that decodes as ASCII. */
  predicate IsAscii(line: string) {
    forall i :: 0 <= i < |line| ==> line[i] < '\U{80}'
  }

  /** All five lines of a record decode as ASCII. */
  predicate AsciiRecord(item: seq<string>)
    requires |item| >= RecordLines
  {
    forall k :: 0 <= k < RecordLines ==> IsAscii(item[k])
  }

  /** The worker's ASCII decoding of the five lines, followed by the decoding
      half of convert_train_data, with the float parser as a parameter.  A
      record is fully decoded only when every line is ASCII, and a non-ASCII
      line is reported before anything else is looked at. */
  function DecodeRecord(item: seq<string>, floatOf: string -> Token): (r: Decoded)
    requires |item| >= RecordLines
    ensures r.Raw? ==> RawShaped(r) && AsciiRecord(item)
    ensures r == Fail(NotAscii) <==> !AsciiRecord(item)
  {
    if !AsciiRecord(item) then Fail(NotAscii)
    else
      match DecodeHeader(item)
      case HeaderError(e) => Fail(e)
      case HeaderOk(h) => DecodeTail(h, Tokens(item[3], floatOf), floatOf(item[4]))
  }

  /** A NaN probability skips the record as soon as it is met, before the
      token count and the winner are looked at; a malformed field met
      before it raises instead. */
  lemma DecodeRecordSkips(item: seq<string>, floatOf: string -> Token)
    requires |item| >= RecordLines
    ensures var tokens := Tokens(item[3], floatOf);
      DecodeRecord(item, floatOf).Skip? <==>
        && AsciiRecord(item)
        && HeaderValid(item)
        && FirstNonNumber(tokens) < |tokens|
        && tokens[FirstNonNumber(tokens)] == NaN
  {
  }

  /** A record decodes exactly when its bitboards and side to move are
      valid, its probability line holds exactly 65 numbers and its value is
      1.0 or -1.0; the decoded fields are then the parsed lines. */
  lemma DecodeRecordSucceeds(item: seq<string>, floatOf: string -> Token)
    requires |item| >= RecordLines
    ensures var tokens := Tokens(item[3], floatOf);
      DecodeRecord(item, floatOf).Raw? <==>
        && AsciiRecord(item)
        && HeaderValid(item)
        && FirstNonNumber(tokens) == |tokens| == PolicySize
        && IsUnitWinner(floatOf(item[4]))
  {
  }

  /** A byte of 0x80 or more in any of the five lines, the value line
      included, fails the record, however well-formed the rest is. */
  lemma NonAsciiFails(item: seq<string>, floatOf: string -> Token, s: int, k: nat, i: nat)
    requires |item| >= RecordLines && IsSymmetry(s) && k < RecordLines && i < |item[k]|
    requires item[k][i] >= '\U{80}'
    ensures Convert(item, floatOf, s) == Failed(NotAscii)
  {
  }

  /** The fields of a decoded record are the parsed lines of the record. */
  lemma DecodeRecordFields(item: seq<string>, floatOf: string -> Token)
    requires |item| >= RecordLines
    requires DecodeRecord(item, floatOf).Raw?
    ensures HeaderValid(item) && floatOf(item[4]).Num?
    ensures DecodeRecord(item, floatOf) == Raw(Bitboard.DecodeBitboard(item[0]).value,
                                               Bitboard.DecodeBitboard(item[1]).value,
                                               item[2][0], Tokens(item[3], floatOf), floatOf(item[4]).value)
  {
  }

  /** After the ASCII decoding the bitboards are checked first: in an ASCII
      record an undecodable bitboard line is always the error raised. */
  lemma DecodeRecordBitboardFirst(item: seq<string>, floatOf: string -> Token)
    requires |item| >= RecordLines
    ensures DecodeRecord(item, floatOf).Fail? && DecodeRecord(item, floatOf).error.BadBitboard?
        <==> AsciiRecord(item) &&
             (Bitboard.DecodeBitboard(item[0]).None? || Bitboard.DecodeBitboard(item[1]).None?)
  {
  }

  /** The planes of a decoded record before any symmetry: both bitboards,
      then the two side-to-move planes. */
  function RawPlanes(d: Decoded): (planes: seq<seq<real>>)
    requires d.Raw? && RawShaped(d)
    ensures |planes| == 4 && PlanesWide(planes)
    ensures |planes[0]| == |planes[1]| == NumSquares && |planes[2]| == |planes[3]| == StmPlaneSize
  {
    [d.first, d.second] + StmPlanes(d.stm)
  }

  /** convert_train_data, with the drawn symmetry as a parameter: a decoded
      record is converted under the symmetry, skips and failures pass through. */
  function Convert(item: seq<string>, floatOf: string -> Token, symmetry: int): (r: Conversion)
    requires |item| >= RecordLines
    requires IsSymmetry(symmetry)
    ensures r.Converted? <==> DecodeRecord(item, floatOf).Raw?
    ensures r.Skipped? <==> DecodeRecord(item, floatOf).Skip?
    ensures r.Failed? ==> r.error == DecodeRecord(item, floatOf).error
  {
    var d := DecodeRecord(item, floatOf);
    match d
    case Skip => Skipped
    case Fail(e) => Failed(e)
    case Raw(_, _, _, probabilities, winner) =>
      Converted(Augment(RawPlanes(d), probabilities, [winner], symmetry))
  }

  /** A converted record is a well-shaped sample: four 64-square planes,
      65 numeric probabilities and a unit value. */
  lemma ConvertShaped(item: seq<string>, floatOf: string -> Token, s: int)
    requires |item| >= RecordLines && IsSymmetry(s)
    requires Convert(item, floatOf, s).Converted?
    ensures WellShaped(Convert(item, floatOf, s).sample)
  {
    var d := DecodeRecord(item, floatOf);
    ConvertRaw(item, floatOf, s);
    RawAugmentShaped(d, s);
  }

  /** A decoded record is converted by augmenting its planes, its policy and
      its value under the symmetry. */
  lemma ConvertRaw(item: seq<string>, floatOf: string -> Token, s: int)
    requires |item| >= RecordLines && IsSymmetry(s)
    requires DecodeRecord(item, floatOf).Raw?
    ensures var d := DecodeRecord(item, floatOf);
      Convert(item, floatOf, s) == Converted(Augment(RawPlanes(d), d.probabilities, [d.winner], s))
  {
  }

  lemma RawAugmentShaped(d: Decoded, s: int)
    requires d.Raw? && RawShaped(d) && IsSymmetry(s)
    ensures WellShaped(Augment(RawPlanes(d), d.probabilities, [d.winner], s))
  {
    var planes := RawPlanes(d);
    var x := Augment(planes, d.probabilities, [d.winner], s);
    forall i | 0 <= i < 4
      ensures |x.planes[i]| == NumSquares
    {
      assert x.planes[i] == ApplySymmetry(planes[i], s);
    }
    forall i | 0 <= i < PolicySize
      ensures IsNumber(x.probabilities[i])
    {
      if i < NumSquares {
        assert x.probabilities[i] == d.probabilities[RemapVertex(i, s)];
      }
    }
  }

  /** What the planes of a converted record hold: the decoded bitboards
      under the symmetry, and the side-to-move planes cut to 64 squares. */
  lemma ConvertedPlanes(item: seq<string>, floatOf: string -> Token, s: int)
    requires |item| >= RecordLines && IsSymmetry(s)
    requires Convert(item, floatOf, s).Converted?
    ensures var x := Convert(item, floatOf, s).sample;
      && x.planes[0] == ApplySymmetry(Bitboard.DecodeBitboard(item[0]).value, s)
      && x.planes[1] == ApplySymmetry(Bitboard.DecodeBitboard(item[1]).value, s)
      && x.planes[2] == seq(NumSquares, _ => if item[2][0] == '0' then 1.0 else 0.0)
      && x.planes[3] == seq(NumSquares, _ => if item[2][0] == '0' then 0.0 else 1.0)
      && x.probabilities == ApplySymmetry(Tokens(item[3], floatOf), s)
      && x.winner == [floatOf(item[4]).value]
  {
    var d := DecodeRecord(item, floatOf);
    DecodeRecordFields(item, floatOf);
    ConvertRaw(item, floatOf, s);
    var planes := RawPlanes(d);
    var x := Augment(planes, d.probabilities, [d.winner], s);
    assert x.planes[2] == ApplySymmetry(planes[2], s);
    assert x.planes[3] == ApplySymmetry(planes[3], s);
    ApplyUniform(StmPlaneSize, 1.0, s);
    ApplyUniform(StmPlaneSize, 0.0, s);
  }

  /** A sample's planes and policy rebuilt under a symmetry. */
  function Reorient(x: Sample, s: int): (y: Sample)
    requires IsSymmetry(s) && WellShaped(x)
    ensures WellShaped(y)
  {
    var y := Augment(x.planes, x.probabilities, x.winner, s);
    forall i | 0 <= i < PolicySize
      ensures IsNumber(y.probabilities[i])
    {
      if i < NumSquares {
        assert y.probabilities[i] == x.probabilities[RemapVertex(i, s)];
      }
    }
    y
  }

  /** The symmetry acts on a whole sample at once: converting under s is
      converting under the identity and then reorienting every tensor by s;
      reorienting by the inverse symmetry recovers the identity sample. */
  lemma SymmetryConsistent(item: seq<string>, floatOf: string -> Token, s: int)
    requires |item| >= RecordLines && IsSymmetry(s)
    requires Convert(item, floatOf, 0).Converted?
    ensures Convert(item, floatOf, s).Converted?
    ensures WellShaped(Convert(item, floatOf, 0).sample) && WellShaped(Convert(item, floatOf, s).sample)
    ensures Convert(item, floatOf, s).sample == Reorient(Convert(item, floatOf, 0).sample, s)
    ensures Reorient(Convert(item, floatOf, s).sample, InverseSymmetry(s)) == Convert(item, floatOf, 0).sample
  {
    var d := DecodeRecord(item, floatOf);
    ConvertShaped(item, floatOf, 0);
    ConvertShaped(item, floatOf, s);
    ConvertRaw(item, floatOf, 0);
    ConvertRaw(item, floatOf, s);
    AugmentAfterIdentity(RawPlanes(d), d.probabilities, [d.winner], s);
    AugmentInverse(RawPlanes(d), d.probabilities, [d.winner], s);
  }

  // ---------------------------------------------------------------------
  // Chunks

  /** The records of a chunk: consecutive groups of five lines; a trailing
      partial group is dropped. */
  function Records(lines: seq<string>): (rs: seq<seq<string>>)
    ensures |rs| == |lines| / RecordLines
    ensures forall k :: 0 <= k < |rs| ==>
      rs[k] == lines[k * RecordLines .. k * RecordLines + RecordLines]
    decreases |lines|
  {
    if |lines| < RecordLines then []
    else [lines[..RecordLines]] + Records(lines[RecordLines..])
  }

  function Concat(rs: seq<seq<string>>): seq<string> {
    if rs == [] then [] else rs[0] + Concat(rs[1..])
  }

  /** The records, put back together, are the chunk up to the dropped tail. */
  lemma {:induction false} RecordsConcat(lines: seq<string>)
    ensures Concat(Records(lines)) == lines[..|lines| / RecordLines * RecordLines]
    decreases |lines|
  {
    if |lines| >= RecordLines {
      var rest := lines[RecordLines..];
      RecordsConcat(rest);
      assert Records(lines)[1..] == Records(rest);
      assert lines[..|lines| / RecordLines * RecordLines]
          == lines[..RecordLines] + rest[..|rest| / RecordLines * RecordLines];
    }
  }

  /** What one chunk puts on the queue, and the exception that ended the
      worker if there was one. */
  datatype ChunkOutcome = ChunkOutcome(samples: seq<Sample>, error: Option<DecodeError>)

  /** Reference semantics of a run of conversions: successes in order,
      skips dropped, and the first failure stops everything after it. */
  function Pushed(cs: seq<Conversion>): ChunkOutcome {
    if cs == [] then ChunkOutcome([], None)
    else match cs[0]
      case Failed(e) => ChunkOutcome([], Some(e))
      case Skipped => Pushed(cs[1..])
      case Converted(x) =>
        var rest := Pushed(cs[1..]);
        rest.(samples := [x] + rest.samples)
  }

  predicate ValidSymmetries(symmetries: seq<int>, n: nat) {
    |symmetries| >= n && forall i :: 0 <= i < |symmetries| ==> IsSymmetry(symmetries[i])
  }

  /** A converter accepts every five-line record under every symmetry. */
  ghost predicate ConvertsRecords(f: (seq<string>, int) --> Conversion) {
    forall item: seq<string>, s: int :: |item| == RecordLines && IsSymmetry(s) ==> f.requires(item, s)
  }

  /** convert_train_data with a fixed float parser, as a function value. */
  function Converter(floatOf: string -> Token): (f: (seq<string>, int) --> Conversion)
    ensures ConvertsRecords(f)
  {
    (item: seq<string>, s: int) requires |item| >= RecordLines && IsSymmetry(s) => Convert(item, floatOf, s)
  }

  /** Every record of a chunk converted by f; record k uses symmetry k. */
  function ConvertRecords(lines: seq<string>, f: (seq<string>, int) --> Conversion, symmetries: seq<int>): (cs: seq<Conversion>)
    requires ValidSymmetries(symmetries, |lines| / RecordLines) && ConvertsRecords(f)
    ensures |cs| == |lines| / RecordLines
    decreases |lines|
  {
    if |lines| < RecordLines then []
    else [f(lines[..RecordLines], symmetries[0])] + ConvertRecords(lines[RecordLines..], f, symmetries[1..])
  }

  /** Record k of a chunk is lines 5k to 5k + 4, converted under symmetry k. */
  lemma {:induction false} ConvertRecordsAt(lines: seq<string>, f: (seq<string>, int) --> Conversion,
                                            symmetries: seq<int>, k: nat)
    requires ValidSymmetries(symmetries, |lines| / RecordLines) && ConvertsRecords(f)
    requires k < |lines| / RecordLines
    ensures k * RecordLines + RecordLines <= |lines|
    ensures ConvertRecords(lines, f, symmetries)[k]
         == f(lines[k * RecordLines .. k * RecordLines + RecordLines], symmetries[k])
    decreases |lines|
  {
    if k > 0 {
      var rest := lines[RecordLines..];
      ConvertRecordsAt(rest, f, symmetries[1..], k - 1);
      assert rest[(k - 1) * RecordLines .. (k - 1) * RecordLines + RecordLines]
          == lines[k * RecordLines .. k * RecordLines + RecordLines];
    }
  }

  /** The conversion of every record of a chunk. */
  function Conversions(lines: seq<string>, floatOf: string -> Token, symmetries: seq<int>): (cs: seq<Conversion>)
    requires ValidSymmetries(symmetries, |lines| / RecordLines)
    ensures |cs| == |lines| / RecordLines
  {
    ConvertRecords(lines, Converter(floatOf), symmetries)
  }

  /** The records a chunk converts are its five-line groups, in order. */
  lemma ConversionsOfRecords(lines: seq<string>, floatOf: string -> Token, symmetries: seq<int>, k: nat)
    requires ValidSymmetries(symmetries, |lines| / RecordLines)
    requires k < |lines| / RecordLines
    ensures Conversions(lines, floatOf, symmetries)[k] == Convert(Records(lines)[k], floatOf, symmetries[k])
  {
    ConvertRecordsAt(lines, Converter(floatOf), symmetries, k);
  }

  /** Lines 5k to 5k + 4 of a chunk, converted under symmetry k. */
  method ConvertItem(lines: seq<string>, floatOf: string -> Token, symmetries: seq<int>, itemIdx: nat)
    returns (conversion: Conversion)
    requires ValidSymmetries(symmetries, |lines| / RecordLines)
    requires itemIdx < |lines| / RecordLines
    ensures conversion == Conversions(lines, floatOf, symmetries)[itemIdx]
  {
    ConvertRecordsAt(lines, Converter(floatOf), symmetries, itemIdx);
    var pickOffset := itemIdx * RecordLines;
    var item := lines[pickOffset .. pickOffset + RecordLines];
    conversion := Convert(item, floatOf, symmetries[itemIdx]);
  }

  /** Samples already pushed, ahead of what the rest of a chunk pushes. */
  function Prepend(samples: seq<Sample>, rest: ChunkOutcome): ChunkOutcome {
    ChunkOutcome(samples + rest.samples, rest.error)
  }

  /** The per-chunk loop of a worker: group the lines into records, convert
      each, push the converted ones; a conversion that raises ends the loop. */
  method ParseChunk(lines: seq<string>, floatOf: string -> Token, symmetries: seq<int>)
    returns (out: ChunkOutcome)
    requires ValidSymmetries(symmetries, |lines| / RecordLines)
    ensures out == Pushed(Conversions(lines, floatOf, symmetries))
    ensures |out.samples| <= |lines| / RecordLines
  {
    ghost var cs := Conversions(lines, floatOf, symmetries);
    var itemCount := |lines| / RecordLines;
    var samples: seq<Sample> := [];
    var itemIdx := 0;
    while itemIdx < itemCount
      invariant 0 <= itemIdx <= itemCount == |cs|
      invariant |samples| <= itemIdx
      invariant Pushed(cs) == Prepend(samples, Pushed(cs[itemIdx..]))
    {
      var conversion := ConvertItem(lines, floatOf, symmetries, itemIdx);
      ghost var before := samples;
      match conversion {
        case Failed(e) =>
          PushedStop(cs, itemIdx, samples);
          return ChunkOutcome(samples, Some(e));
        case Skipped =>
        case Converted(x) =>
          samples := samples + [x];
      }
      assert samples == before + Emitted(cs[itemIdx]);
      PushedAdvance(cs, itemIdx, before);
      itemIdx := itemIdx + 1;
    }
    assert cs[itemIdx..] == [];
    out := ChunkOutcome(samples, None);
  }

  /** The sample a conversion pushes, if any. */
  function Emitted(c: Conversion): seq<Sample> {
    if c.Converted? then [c.sample] else []
  }

  /** Consuming one record that does not fail moves its sample (if any)
      from the rest of the chunk to the samples pushed so far. */
  lemma PushedAdvance(cs: seq<Conversion>, i: nat, samples: seq<Sample>)
    requires i < |cs| && !cs[i].Failed?
    ensures Prepend(samples, Pushed(cs[i..])) == Prepend(samples + Emitted(cs[i]), Pushed(cs[i + 1..]))
  {
    PushedStep(cs, i);
    if cs[i].Converted? {
      PrependTwice(samples, cs[i].sample, Pushed(cs[i + 1..]));
    }
  }

  /** A failing record ends the chunk with the samples pushed before it. */
  lemma PushedStop(cs: seq<Conversion>, i: nat, samples: seq<Sample>)
    requires i < |cs| && cs[i].Failed?
    ensures Prepend(samples, Pushed(cs[i..])) == ChunkOutcome(samples, Some(cs[i].error))
  {
    PushedStep(cs, i);
    assert samples + [] == samples;
  }

  lemma PrependTwice(samples: seq<Sample>, x: Sample, rest: ChunkOutcome)
    ensures Prepend(samples, Prepend([x], rest)) == Prepend(samples + [x], rest)
  {
    assert samples + ([x] + rest.samples) == (samples + [x]) + rest.samples;
  }

  lemma PushedStep(cs: seq<Conversion>, i: nat)
    requires i < |cs|
    ensures cs[i].Failed? ==> Pushed(cs[i..]) == ChunkOutcome([], Some(cs[i].error))
    ensures cs[i].Skipped? ==> Pushed(cs[i..]) == Pushed(cs[i + 1..])
    ensures cs[i].Converted? ==> Pushed(cs[i..]) == Prepend([cs[i].sample], Pushed(cs[i + 1..]))
  {
    assert cs[i..][1..] == cs[i + 1..];
  }

  lemma {:induction false} PushedBound(cs: seq<Conversion>)
    ensures |Pushed(cs).samples| <= |cs|
  {
    if cs != [] {
      PushedBound(cs[1..]);
    }
  }

  // ---------------------------------------------------------------------
  // A second, independent description of what a chunk pushes

  /** The converted samples of a run, in order (skips and failures dropped). */
  function Successes(cs: seq<Conversion>): (xs: seq<Sample>)
    ensures |xs| <= |cs|
  {
    if cs == [] then []
    else if cs[0].Converted? then [cs[0].sample] + Successes(cs[1..])
    else Successes(cs[1..])
  }

  /** Index of the first failed conversion, or the length. */
  function FirstFailure(cs: seq<Conversion>): (i: nat)
    ensures i <= |cs|
    ensures forall j :: 0 <= j < i ==> !cs[j].Failed?
    ensures i < |cs| ==> cs[i].Failed?
  {
    if cs == [] || cs[0].Failed? then 0 else 1 + FirstFailure(cs[1..])
  }

  /** What a chunk pushes is the converted samples, in chunk order, of the
      records before the first failing one; the failure (if any) is that
      record's error. */
  lemma {:induction false} PushedIsSuccessPrefix(cs: seq<Conversion>)
    ensures Pushed(cs).samples == Successes(cs[..FirstFailure(cs)])
    ensures Pushed(cs).error.Some? <==> FirstFailure(cs) < |cs|
    ensures FirstFailure(cs) < |cs| ==> Pushed(cs).error == Some(cs[FirstFailure(cs)].error)
  {
    if cs != [] && !cs[0].Failed? {
      PushedIsSuccessPrefix(cs[1..]);
      assert cs[..FirstFailure(cs)][1..] == cs[1..][..FirstFailure(cs[1..])];
    }
  }

  /** Without a malformed record, a chunk of n lines pushes one sample for
      every one of its floor(n/5) records that is not skipped. */
  lemma ChunkWithoutErrors(lines: seq<string>, floatOf: string -> Token, symmetries: seq<int>)
    requires ValidSymmetries(symmetries, |lines| / RecordLines)
    requires forall k :: 0 <= k < |lines| / RecordLines ==>
      !Conversions(lines, floatOf, symmetries)[k].Failed?
    ensures Pushed(Conversions(lines, floatOf, symmetries)).error == None
    ensures |Pushed(Conversions(lines, floatOf, symmetries)).samples|
         == |lines| / RecordLines - SkipCount(Conversions(lines, floatOf, symmetries))
  {
    PushedWithoutFailures(Conversions(lines, floatOf, symmetries));
  }

  lemma PushedWithoutFailures(cs: seq<Conversion>)
    requires forall j :: 0 <= j < |cs| ==> !cs[j].Failed?
    ensures Pushed(cs).error == None
    ensures |Pushed(cs).samples| == |cs| - SkipCount(cs)
  {
    PushedIsSuccessPrefix(cs);
    assert cs[..|cs|] == cs;
    SuccessesCount(cs);
  }

  function SkipCount(cs: seq<Conversion>): nat {
    if cs == [] then 0 else (if cs[0].Skipped? then 1 else 0) + SkipCount(cs[1..])
  }

  lemma {:induction false} SuccessesCount(cs: seq<Conversion>)
    requires forall j :: 0 <= j < |cs| ==> !cs[j].Failed?
    ensures |Successes(cs)| == |cs| - SkipCount(cs)
  {
    if cs != [] {
      SuccessesCount(cs[1..]);
    }
  }
}
