/**
 * Image(value): the parser of the driver's textual pixel-art notation.
 * Seven rows of 17 intensity digits; rows 0..5 end with ':' (so row y starts
 * at 18 * y). The result is the list of [x, y, intensity] triples, row by row.
 */
module ImageText {
  import opened Wrappers

  /** A pixel [x, y, intensity] as the driver lists them. */
  datatype Triple = Triple(x: int, y: int, intensity: int)

  /** The argument of Image(): absent (None), a string, or a value of another type. */
  datatype Argument = Absent | Str(s: string) | NotString

  /** The exceptions the parser raises. */
  datatype Fault = ValueError | IndexError

  /** Length of the part of the text the parser reads (the last data digit is at 124). */
  const TEXT_LENGTH := 125
  /** Number of triples in a parsed image. */
  const PIXELS := 119

  predicate IsDigit(c: char) {
    '0' <= c <= '9'
  }

  function DigitValue(c: char): int {
    c as int - '0' as int
  }

  /** Where the data digit for pixel (x, y) sits in the text. */
  function DataIndex(x: int, y: int): int {
    y * 18 + x
  }

  /** Where the separator ending row y sits in the text. */
  function SeparatorIndex(y: int): int {
    (y + 1) * 18 - 1
  }

  /** A text the parser accepts: separators after rows 0..5 and a digit at every data position. */
  ghost predicate WellFormed(s: string) {
    && |s| >= TEXT_LENGTH
    && (forall y :: 0 <= y < 6 ==> s[SeparatorIndex(y)] == ':')
    && (forall x, y :: 0 <= x < 17 && 0 <= y < 7 ==> IsDigit(s[DataIndex(x, y)]))
  }

  /** The k-th triple of a parsed image: pixel (k % 17, k / 17) with its digit. */
  function TripleAt(s: string, k: int): Triple
    requires 0 <= k && DataIndex(k % 17, k / 17) < |s|
  {
    Triple(k % 17, k / 17, DigitValue(s[DataIndex(k % 17, k / 17)]))
  }

  /** The triples of an accepted text, in row-major order. */
  function Decoded(s: string): (r: seq<Triple>)
    requires WellFormed(s)
    ensures |r| == PIXELS
    ensures forall k :: 0 <= k < PIXELS ==> r[k].x == k % 17 && r[k].y == k / 17 && 0 <= r[k].intensity <= 9
  {
    seq(PIXELS, k requires 0 <= k < PIXELS => TripleAt(s, k))
  }

  /*
   * The parser's checks, in the order it makes them. Row y < 6 takes 18 steps
   * (its separator first, then its 17 digits); row 6 takes 17 (digits only).
   * Step j therefore reads index j + 17 when it checks a separator, index j - 1
   * for a digit in rows 0..5, and index j for a digit in row 6.
   */
  const STEPS := 125

  predicate IsSeparatorStep(j: int) {
    j < 108 && j % 18 == 0
  }

  /** The text index step j reads: the separator ending row j / 18, or the digit of one pixel. */
  function StepIndex(j: int): (i: int)
    requires 0 <= j < STEPS
    ensures 0 <= i < TEXT_LENGTH
    ensures IsSeparatorStep(j) ==> i == SeparatorIndex(j / 18)
    ensures !IsSeparatorStep(j) && j < 108 ==> i == DataIndex(j % 18 - 1, j / 18) && 0 <= j % 18 - 1 < 17
    ensures j >= 108 ==> i == DataIndex(j - 108, 6) && j - 108 < 17
  {
    if IsSeparatorStep(j) then j + 17 else if j < 108 then j - 1 else j
  }

  /** What step j of the parse raises on s, if anything. */
  function StepFault(s: string, j: int): (f: Option<Fault>)
    requires 0 <= j < STEPS
    ensures f == Some(IndexError) <==> StepIndex(j) >= |s|
    ensures f == Some(ValueError) ==> StepIndex(j) < |s|
    ensures f == Some(ValueError) && IsSeparatorStep(j) ==> s[SeparatorIndex(j / 18)] != ':'
    ensures f == Some(ValueError) && !IsSeparatorStep(j) ==> !IsDigit(s[StepIndex(j)])
    ensures f.None? && IsSeparatorStep(j) ==> s[SeparatorIndex(j / 18)] == ':'
    ensures f.None? && !IsSeparatorStep(j) ==> IsDigit(s[StepIndex(j)])
  {
    var i := StepIndex(j);
    if i >= |s| then Some(IndexError)
    else if IsSeparatorStep(j) then (if s[i] != ':' then Some(ValueError) else None)
    else if !IsDigit(s[i]) then Some(ValueError)
    else None
  }

  /** Steps 0..n-1 all pass. */
  ghost predicate PassesUpTo(s: string, n: int) {
    forall j :: 0 <= j < n && j < STEPS ==> StepFault(s, j).None?
  }

  /** e is what the parse of s raises: the fault of the first failing step. */
  ghost predicate RaisesFirst(s: string, e: Fault) {
    exists j :: 0 <= j < STEPS && PassesUpTo(s, j) && StepFault(s, j) == Some(e)
  }

  /**
   * Image.__new__. A string is parsed row by row, checking each row's separator
   * before its digits and raising on the first check that fails; anything that
   * is not a string yields the single blank pixel [[0, 0, 0]].
   */
  method ParseImage(value: Argument) returns (r: Result<seq<Triple>, Fault>)
    ensures !value.Str? ==> r == Ok([Triple(0, 0, 0)])
    ensures value.Str? ==> (r.Ok? <==> PassesUpTo(value.s, STEPS))
    ensures value.Str? && r.Ok? ==> WellFormed(value.s) && r.value == Decoded(value.s)
    ensures value.Str? && r.Err? ==> RaisesFirst(value.s, r.error)
  {
    if !value.Str? {
      return Ok([Triple(0, 0, 0)]);
    }
    var s := value.s;
    var data: seq<Triple> := [];
    var y := 0;
    while y < 7
      invariant 0 <= y <= 7
      invariant PassesUpTo(s, if y < 7 then 18 * y else STEPS)
      invariant |data| == 17 * y
      invariant forall k :: 0 <= k < |data| ==> DataIndex(k % 17, k / 17) < |s| && data[k] == TripleAt(s, k)
    {
      var step := 18 * y;
      if y < 6 {
        if SeparatorIndex(y) >= |s| {
          assert StepIndex(step) == SeparatorIndex(y);
          assert StepFault(s, step) == Some(IndexError);
          return Err(IndexError);
        }
        if s[SeparatorIndex(y)] != ':' {
          assert StepIndex(step) == SeparatorIndex(y);
          assert StepFault(s, step) == Some(ValueError);
          return Err(ValueError);
        }
        assert StepFault(s, step).None?;
        step := step + 1;
      }
      var x := 0;
      while x < 17
        invariant 0 <= x <= 17
        invariant step == 18 * y + (if y < 6 then 1 else 0) + x
        invariant PassesUpTo(s, step)
        invariant |data| == 17 * y + x
        invariant forall k :: 0 <= k < |data| ==> DataIndex(k % 17, k / 17) < |s| && data[k] == TripleAt(s, k)
      {
        assert StepIndex(step) == DataIndex(x, y);
        if DataIndex(x, y) >= |s| {
          assert StepFault(s, step) == Some(IndexError);
          return Err(IndexError);
        }
        if !IsDigit(s[DataIndex(x, y)]) {
          assert StepFault(s, step) == Some(ValueError);
          return Err(ValueError);
        }
        assert (17 * y + x) % 17 == x && (17 * y + x) / 17 == y;
        data := data + [Triple(x, y, DigitValue(s[DataIndex(x, y)]))];
        step := step + 1;
        x := x + 1;
      }
      y := y + 1;
    }
    PassingStepsWellFormed(s);
    return Ok(data);
  }

  /** Passing every step is exactly being well formed. */
  lemma PassingStepsWellFormed(s: string)
    ensures PassesUpTo(s, STEPS) <==> WellFormed(s)
  {
    if PassesUpTo(s, STEPS) {
      assert StepFault(s, STEPS - 1).None?;
      forall y | 0 <= y < 6 ensures s[SeparatorIndex(y)] == ':' {
        assert StepFault(s, 18 * y).None?;
      }
      forall x, y | 0 <= x < 17 && 0 <= y < 7 ensures IsDigit(s[DataIndex(x, y)]) {
        var j := 18 * y + (if y < 6 then 1 else 0) + x;
        assert StepIndex(j) == DataIndex(x, y);
        assert StepFault(s, j).None?;
      }
    }
    if WellFormed(s) {
      forall j | 0 <= j < STEPS ensures StepFault(s, j).None? {
        var y := j / 18;
        if IsSeparatorStep(j) {
          assert StepIndex(j) == SeparatorIndex(y);
        } else if j < 108 {
          assert StepIndex(j) == DataIndex(j % 18 - 1, y);
        } else {
          assert StepIndex(j) == DataIndex(j - 108, 6);
        }
      }
    }
  }

  /** The parse of a text raises at most one kind of fault: the first failing step decides it. */
  lemma RaisesFirstUnique(s: string, e1: Fault, e2: Fault)
    requires RaisesFirst(s, e1) && RaisesFirst(s, e2)
    ensures e1 == e2
  {
    var j1 :| 0 <= j1 < STEPS && PassesUpTo(s, j1) && StepFault(s, j1) == Some(e1);
    var j2 :| 0 <= j2 < STEPS && PassesUpTo(s, j2) && StepFault(s, j2) == Some(e2);
    assert j1 == j2;
  }

  /**
   * A separator that is present in the text but is not ':' makes the parse
   * raise ValueError, whatever else the text holds: every check before it reads
   * an index that exists.
   */
  lemma MissingSeparatorRaisesValueError(s: string, y: int)
    requires 0 <= y < 6 && SeparatorIndex(y) < |s| && s[SeparatorIndex(y)] != ':'
    ensures !PassesUpTo(s, STEPS)
    ensures RaisesFirst(s, ValueError)
  {
    var bad := 18 * y;
    assert StepIndex(bad) == SeparatorIndex(y);
    assert StepFault(s, bad) == Some(ValueError);
    var j := 0;
    while j < bad && StepFault(s, j).None?
      invariant 0 <= j <= bad
      invariant PassesUpTo(s, j)
    {
      j := j + 1;
    }
    assert StepIndex(j) < |s| by {
      if IsSeparatorStep(j) && j < bad {
        assert j / 18 < y;
        assert j <= 18 * (y - 1);
      }
    }
    assert StepFault(s, j) == Some(ValueError);
  }

  /** The empty string is a string: it is parsed, and the first separator read is out of range. */
  lemma EmptyTextRaisesIndexError()
    ensures !PassesUpTo("", STEPS)
    ensures RaisesFirst("", IndexError) && !RaisesFirst("", ValueError)
  {
    assert StepFault("", 0) == Some(IndexError);
    assert PassesUpTo("", 0);
    if RaisesFirst("", ValueError) {
      RaisesFirstUnique("", IndexError, ValueError);
    }
  }

  function DigitChar(v: int): char
    requires 0 <= v <= 9
  {
    ('0' as int + v) as char
  }

  /**
   * The text form of 119 intensities, row-major: the inverse of the parser,
   * writing each row's 17 digits and a ':' after rows 0..5.
   */
  function EncodeImage(d: seq<int>): (s: string)
    requires |d| == PIXELS && forall k :: 0 <= k < PIXELS ==> 0 <= d[k] <= 9
    ensures |s| == TEXT_LENGTH
  {
    seq(TEXT_LENGTH, i requires 0 <= i < TEXT_LENGTH =>
      if i % 18 == 17 then ':' else DigitChar(d[(i / 18) * 17 + i % 18]))
  }

  /** The intensities of a list of triples. */
  function Intensities(ts: seq<Triple>): (d: seq<int>)
    ensures |d| == |ts| && forall k :: 0 <= k < |ts| ==> d[k] == ts[k].intensity
  {
    seq(|ts|, k requires 0 <= k < |ts| => ts[k].intensity)
  }

  /** Encoding intensities and parsing the text gives back every pixel with its intensity. */
  lemma DecodeEncode(d: seq<int>)
    requires |d| == PIXELS && forall k :: 0 <= k < PIXELS ==> 0 <= d[k] <= 9
    ensures WellFormed(EncodeImage(d))
    ensures Decoded(EncodeImage(d)) == seq(PIXELS, k requires 0 <= k < PIXELS => Triple(k % 17, k / 17, d[k]))
  {
    var s := EncodeImage(d);
    forall y | 0 <= y < 6 ensures s[SeparatorIndex(y)] == ':' {
      assert SeparatorIndex(y) % 18 == 17;
    }
    forall x, y | 0 <= x < 17 && 0 <= y < 7
      ensures IsDigit(s[DataIndex(x, y)]) && DigitValue(s[DataIndex(x, y)]) == d[y * 17 + x]
    {
      var i := DataIndex(x, y);
      assert i % 18 == x && i / 18 == y;
    }
    forall k | 0 <= k < PIXELS ensures Decoded(s)[k] == Triple(k % 17, k / 17, d[k]) {
      assert (k / 17) * 17 + k % 17 == k;
    }
  }

  /** Parsing an accepted text and encoding its intensities rebuilds the text the parser read. */
  lemma EncodeDecode(s: string)
    requires WellFormed(s)
    ensures EncodeImage(Intensities(Decoded(s))) == s[..TEXT_LENGTH]
  {
    var d := Intensities(Decoded(s));
    forall i | 0 <= i < TEXT_LENGTH ensures EncodeImage(d)[i] == s[i] {
      var y, x := i / 18, i % 18;
      if x == 17 {
        assert i == SeparatorIndex(y);
      } else {
        var k := y * 17 + x;
        assert k % 17 == x && k / 17 == y;
        assert i == DataIndex(x, y);
      }
    }
  }
}
