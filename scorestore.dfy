/** Nucleo's score persistence: `store_score_in_bSRAM` writes a text line into backup SRAM,
    `load_bSRAM_score` finds its end and parses the counters back with a small state machine. */
module ScoreStore {
  import opened Ascii

  /** The four `uint8_t` counters Nucleo keeps. */
  datatype Score = Score(nucleoWins: uint8, discWins: uint8, ties: uint8, gameErr: uint8)

  const ZERO_SCORE: Score := Score(0, 0, 0, 0)

  /** Counter `k` (1 Nucleo wins, 2 Disc wins, 3 ties, 4 game errors), numbered as the round results are. */
  function Counter(s: Score, k: int): uint8
    requires 1 <= k <= 4
  {
    if k == 1 then s.nucleoWins else if k == 2 then s.discWins else if k == 3 then s.ties else s.gameErr
  }

  // ---------------------------------------------------------------------------------------------
  // The stored line: "Nucleo Wins: %d, Disc Wins: %d, Ties: %d, Game Error: %d\r\n"

  const NUCLEO_LABEL: string := "Nucleo Wins: "
  const DISC_LABEL: string := " Disc Wins: "
  const TIES_LABEL: string := " Ties: "
  const ERROR_LABEL: string := " Game Error: "

  /** The text `sprintf` leaves in `write_buff` (without its terminating NUL). */
  function ScoreLine(a: uint8, b: uint8, c: uint8, d: uint8): seq<uint8> {
    LabelFacts();
    Bytes(NUCLEO_LABEL) + Decimal(a) + Separated(DISC_LABEL) + Decimal(b)
      + Separated(TIES_LABEL) + Decimal(c) + Separated(ERROR_LABEL) + Decimal(d)
      + [CARRIAGE_RETURN, NEWLINE]
  }

  predicate NoByte(s: seq<uint8>, b: uint8) {
    forall i | 0 <= i < |s| :: s[i] != b
  }

  lemma {:induction false} NoByteAppend(s: seq<uint8>, t: seq<uint8>, b: uint8)
    requires NoByte(s, b) && NoByte(t, b)
    ensures NoByte(s + t, b)
  {
    forall i | 0 <= i < |s + t| ensures (s + t)[i] != b {
      if i < |s| { assert (s + t)[i] == s[i]; } else { assert (s + t)[i] == t[i - |s|]; }
    }
  }

  /** Bytes holding neither a newline nor a NUL, as labels, digits, commas and '\r' are. */
  predicate Unremarkable(s: seq<uint8>) {
    NoByte(s, NEWLINE) && NoByte(s, 0)
  }

  lemma PlainBytes(s: string)
    requires IsPlainText(s)
    ensures forall i | 0 <= i < |s| :: s[i] as int < 256
    ensures Unremarkable(Bytes(s)) && NoByte(Bytes(s), COMMA)
    ensures forall i | 0 <= i < |Bytes(s)| :: !IsDigit(Bytes(s)[i])
  {
    forall i | 0 <= i < |s|
      ensures s[i] as int < 256 && Bytes(s)[i] != 0 && Bytes(s)[i] != NEWLINE && Bytes(s)[i] != COMMA && !IsDigit(Bytes(s)[i])
    {
      assert IsPlainChar(s[i]);
    }
  }

  lemma LabelFacts()
    ensures IsPlainText(NUCLEO_LABEL) && IsPlainText(DISC_LABEL)
    ensures IsPlainText(TIES_LABEL) && IsPlainText(ERROR_LABEL)
    ensures |NUCLEO_LABEL| == 13 && |DISC_LABEL| == 12 && |TIES_LABEL| == 7 && |ERROR_LABEL| == 13
    ensures NUCLEO_LABEL[12] == ' ' && DISC_LABEL[11] == ' ' && TIES_LABEL[6] == ' ' && ERROR_LABEL[12] == ' '
  {
  }

  /** A label with the comma that precedes it, for the last three fields. */
  function Separated(text: string): seq<uint8>
    requires IsPlainText(text)
  {
    PlainBytes(text);
    [COMMA] + Bytes(text)
  }

  lemma SeparatedFacts(text: string)
    requires IsPlainText(text)
    ensures Unremarkable(Separated(text)) && Count(Separated(text), COMMA) == 1
    ensures |Separated(text)| == |text| + 1
  {
    PlainBytes(text);
    CountAbsent(Bytes(text), COMMA);
    CountAppend([COMMA], Bytes(text), COMMA);
    NoByteAppend([COMMA], Bytes(text), NEWLINE);
    NoByteAppend([COMMA], Bytes(text), 0);
  }

  lemma DecimalFacts(n: uint8)
    ensures Unremarkable(Decimal(n)) && Count(Decimal(n), COMMA) == 0
    ensures 1 <= |Decimal(n)| <= 3
  {
    var r := Decimal(n);
    DecimalShape(n);
    forall i | 0 <= i < |r| ensures r[i] != NEWLINE && r[i] != 0 && r[i] != COMMA {
      assert IsDigit(r[i]);
    }
    CountAbsent(r, COMMA);
  }

  /** Appending a piece adds up lengths and commas, and keeps newlines and NULs out. */
  lemma {:induction false} Piece(s: seq<uint8>, t: seq<uint8>)
    requires Unremarkable(s) && Unremarkable(t)
    ensures Unremarkable(s + t) && Count(s + t, COMMA) == Count(s, COMMA) + Count(t, COMMA)
  {
    NoByteAppend(s, t, NEWLINE);
    NoByteAppend(s, t, 0);
    CountAppend(s, t, COMMA);
  }

  /** The shape of the stored line for any four counters: 54 to 62 bytes, so it and its NUL
      fit `write_buff[75]`; no NUL inside, so `strlen` is its length; exactly three commas;
      exactly one newline, as its last byte. */
  lemma {:induction false} ScoreLineShape(a: uint8, b: uint8, c: uint8, d: uint8)
    ensures var line := ScoreLine(a, b, c, d);
      && 54 <= |line| <= 62
      && |line| + 1 <= 75
      && NoByte(line, 0)
      && Count(line, COMMA) == 3
      && line[|line| - 1] == NEWLINE
      && NoByte(line[..|line| - 1], NEWLINE)
  {
    LabelFacts();
    PlainBytes(NUCLEO_LABEL);
    CountAbsent(Bytes(NUCLEO_LABEL), COMMA);
    SeparatedFacts(DISC_LABEL);
    SeparatedFacts(TIES_LABEL);
    SeparatedFacts(ERROR_LABEL);
    DecimalFacts(a);
    DecimalFacts(b);
    DecimalFacts(c);
    DecimalFacts(d);
    var p1 := Bytes(NUCLEO_LABEL) + Decimal(a);
    Piece(Bytes(NUCLEO_LABEL), Decimal(a));
    var p2 := p1 + Separated(DISC_LABEL);
    Piece(p1, Separated(DISC_LABEL));
    var p3 := p2 + Decimal(b);
    Piece(p2, Decimal(b));
    var p4 := p3 + Separated(TIES_LABEL);
    Piece(p3, Separated(TIES_LABEL));
    var p5 := p4 + Decimal(c);
    Piece(p4, Decimal(c));
    var p6 := p5 + Separated(ERROR_LABEL);
    Piece(p5, Separated(ERROR_LABEL));
    var p7 := p6 + Decimal(d);
    Piece(p6, Decimal(d));
    var p8 := p7 + [CARRIAGE_RETURN];
    Piece(p7, [CARRIAGE_RETURN]);
    CountAbsent([CARRIAGE_RETURN], COMMA);
    var line := ScoreLine(a, b, c, d);
    assert line == p8 + [NEWLINE];
    assert line[..|line| - 1] == p8;
    CountAppend(p8, [NEWLINE], COMMA);
    NoByteAppend(p8, [NEWLINE], 0);
  }

  // ---------------------------------------------------------------------------------------------
  // store_score_in_bSRAM

  /** Writes `strlen(write_buff) + 1` bytes of the formatted line, its NUL included, from the
      base of backup SRAM; the bytes past them keep their old values. */
  method StoreScore(sram: array<uint8>, a: uint8, b: uint8, c: uint8, d: uint8)
    requires sram.Length >= 75
    modifies sram
    ensures |ScoreLine(a, b, c, d)| + 1 <= sram.Length
    ensures sram[..|ScoreLine(a, b, c, d)| + 1] == ScoreLine(a, b, c, d) + [0]
    ensures sram[|ScoreLine(a, b, c, d)| + 1..] == old(sram[|ScoreLine(a, b, c, d)| + 1..])
  {
    var line := ScoreLine(a, b, c, d);
    ScoreLineShape(a, b, c, d);
    var writeBuff := line + [0];
    var i := 0;
    while i < |line| + 1
      invariant 0 <= i <= |line| + 1
      invariant sram[..i] == writeBuff[..i]
      invariant forall k | i <= k < sram.Length :: sram[k] == old(sram[k])
    {
      sram[i] := writeBuff[i];
      i := i + 1;
    }
  }

  /** Memory `mem` starts with the stored line for `s` and its NUL. */
  ghost predicate HoldsLine(mem: seq<uint8>, s: Score) {
    var line := ScoreLine(s.nucleoWins, s.discWins, s.ties, s.gameErr);
    |line| + 1 <= |mem| && mem[..|line| + 1] == line + [0]
  }

  // ---------------------------------------------------------------------------------------------
  // load_bSRAM_score, part 1: the length scan

  /** Outcome of the scan for `'\n'`: the `uint8_t` text length, or no end at all. */
  datatype Scan = Found(textLength: uint8) | Endless

  /** Index of the first newline in `s`, or `|s|` when there is none. */
  function FirstNewline(s: seq<uint8>): (k: nat)
    ensures k <= |s|
    ensures forall i | 0 <= i < k :: s[i] != NEWLINE
    ensures k < |s| ==> s[k] == NEWLINE
  {
    if s == [] then 0 else if s[0] == NEWLINE then 0 else 1 + FirstNewline(s[1..])
  }

  /** The scan reads `sram[text_length]` with a `uint8_t` index, so only bytes 0..255 are ever
      read. It stops after the first newline, at index k, with `text_length == (k + 1) mod 256`.
      Its guard `text_length <= 255` always holds, so without a newline among those 256 bytes it
      wraps round and never stops. */
  function ScanSpec(sram: seq<uint8>): (r: Scan)
    requires |sram| >= 256
    ensures r.Found? <==> exists i | 0 <= i < 256 :: sram[i] == NEWLINE
    ensures r.Found? ==> (r.textLength + 255) % 256 < 256 && sram[(r.textLength + 255) % 256] == NEWLINE
    ensures r.Found? ==> forall i | 0 <= i < (r.textLength + 255) % 256 :: sram[i] != NEWLINE
  {
    var k := FirstNewline(sram[..256]);
    if k < 256 then Found((k + 1) % 256) else Endless
  }

  method ScanTextLength(sram: array<uint8>) returns (r: Scan)
    requires sram.Length >= 256
    ensures r == ScanSpec(sram[..])
  {
    var textEnd: uint8 := LETTER_A;
    var textLength: uint8 := 0;
    // Bytes read so far. `load_bSRAM_score` has no such counter: its loop only ends on a newline.
    // The model stops after 256 reads without one, where the firmware starts its endless second lap.
    var readCount := 0;
    while textEnd != NEWLINE && readCount < 256
      invariant 0 <= readCount <= 256
      invariant textLength == readCount % 256
      invariant forall i | 0 <= i < readCount - 1 :: sram[i] != NEWLINE
      invariant textEnd == if readCount == 0 then LETTER_A else sram[readCount - 1]
      decreases 256 - readCount
    {
      textEnd := sram[textLength];
      textLength := (textLength + 1) % 256;
      readCount := readCount + 1;
    }
    var k := FirstNewline(sram[..256]);
    if textEnd == NEWLINE {
      assert sram[..256][readCount - 1] == NEWLINE;
      r := Found(textLength);
    } else {
      assert forall i | 0 <= i < 256 :: sram[..256][i] != NEWLINE;
      r := Endless;
    }
  }

  // ---------------------------------------------------------------------------------------------
  // load_bSRAM_score, part 2: the comma/digit state machine

  /** The loop variables `c`, `num` (`uint32_t`), `j` and `stats[4]`. */
  datatype ParseState = ParseState(c: uint8, num: nat, j: nat, stats: seq<uint8>)

  const PARSE_START: ParseState := ParseState(LETTER_A, 0, 0, [0, 0, 0, 0])

  /** One iteration for byte `b`. While the previous byte was not a comma the byte is read into
      `c` and, if a digit, accumulated into `num`. Right after a comma `num` is stored, truncated
      to 8 bits, into `stats[j]`, `j` advances, and the byte goes into `c` unaccumulated.
      Storing into `stats[4]` or beyond is out of bounds: `None`. */
  function Step(st: ParseState, b: uint8): Option<ParseState> {
    if st.c != COMMA then
      Some(st.(c := b, num := if IsDigit(b) then (st.num * 10 + (b - DIGIT_ZERO)) % UINT32_MODULUS else st.num))
    else if st.j < |st.stats| then
      Some(ParseState(b, 0, st.j + 1, st.stats[st.j := st.num % 256]))
    else
      None
  }

  /** The state machine run over `bs` from `st`. */
  function Run(st: ParseState, bs: seq<uint8>): Option<ParseState>
    decreases |bs|
  {
    if bs == [] then Some(st)
    else match Run(st, bs[..|bs| - 1])
      case None => None
      case Some(s) => Step(s, bs[|bs| - 1])
  }

  /** The counters the parse of `bs` leaves in `stats`, or `None` if it overruns `stats`. */
  function ParseSpec(bs: seq<uint8>): (r: Option<seq<uint8>>)
    ensures r.Some? ==> |r.value| == 4
  {
    RunKeepsSize(PARSE_START, bs);
    match Run(PARSE_START, bs)
    case None => None
    case Some(st) => Some(st.stats)
  }

  /** The parse never changes the size of `stats`: it only stores into existing slots. */
  lemma {:induction false} RunKeepsSize(st: ParseState, bs: seq<uint8>)
    ensures Run(st, bs).Some? ==> |Run(st, bs).value.stats| == |st.stats|
    decreases |bs|
  {
    if bs != [] {
      RunKeepsSize(st, bs[..|bs| - 1]);
    }
  }

  lemma {:induction false} RunAppend(st: ParseState, a: seq<uint8>, b: seq<uint8>)
    ensures Run(st, a + b) == match Run(st, a) case None => None case Some(s) => Run(s, b)
    decreases |b|
  {
    if b == [] {
      assert a + b == a;
    } else {
      assert (a + b)[..|a + b| - 1] == a + b[..|b| - 1];
      RunAppend(st, a, b[..|b| - 1]);
    }
  }

  method ParseStats(sram: array<uint8>, textLength: uint8) returns (r: Option<seq<uint8>>)
    requires sram.Length >= 256
    ensures r == ParseSpec(sram[..textLength])
  {
    var c: uint8 := LETTER_A;
    var num: nat := 0;
    var j: nat := 0;
    var stats := new uint8[4](_ => 0);
    assert stats[..] == [0, 0, 0, 0];
    var i := 0;
    while i < textLength
      invariant 0 <= i <= textLength
      invariant Run(PARSE_START, sram[..i]) == Some(ParseState(c, num, j, stats[..]))
    {
      assert sram[..i + 1][..i] == sram[..i];
      if c != COMMA {
        c := sram[i];
        if IsDigit(c) {
          num := (num * 10 + (c - DIGIT_ZERO)) % UINT32_MODULUS;
        }
      } else {
        if j >= stats.Length {
          // stats[j] is out of bounds
          RunAppend(PARSE_START, sram[..i + 1], sram[i + 1..textLength]);
          assert sram[..i + 1] + sram[i + 1..textLength] == sram[..textLength];
          return None;
        }
        stats[j] := num % 256;
        num := 0;
        j := j + 1;
        c := sram[i];
      }
      i := i + 1;
    }
    assert sram[..i] == sram[..textLength];
    r := Some(stats[..]);
  }

  // ---------------------------------------------------------------------------------------------
  // load_bSRAM_score as a whole

  /** What loading does with the SRAM contents: the restored counters, the scan that never ends,
      or a parse that reaches the out-of-bounds store into `stats[4]`, whose effect C leaves
      undefined. */
  datatype LoadOutcome = Loaded(score: Score) | ScanNeverEnds | StatsOverrun

  function LoadSpec(sram: seq<uint8>): LoadOutcome
    requires |sram| >= 256
  {
    match ScanSpec(sram)
    case Endless => ScanNeverEnds
    case Found(len) =>
      match ParseSpec(sram[..len])
      case None => StatsOverrun
      case Some(st) => Loaded(Score(st[0], st[1], st[2], st[3]))
  }

  // ---------------------------------------------------------------------------------------------
  // What the parser makes of the stored line

  /** Bytes that are neither commas nor digits only pass through `c`. */
  lemma {:induction false} RunPlain(st: ParseState, s: seq<uint8>)
    requires st.c != COMMA
    requires forall i | 0 <= i < |s| :: s[i] != COMMA && !IsDigit(s[i])
    ensures Run(st, s) == Some(if s == [] then st else st.(c := s[|s| - 1]))
    decreases |s|
  {
    if s != [] {
      RunPlain(st, s[..|s| - 1]);
    }
  }

  /** Reading `%d` of `n` from a fresh `num` accumulates exactly `n`. */
  lemma {:induction false} RunDigits(st: ParseState, n: uint8)
    requires st.c != COMMA && st.num == 0
    ensures Run(st, Decimal(n)) == Some(st.(c := DIGIT_ZERO + n % 10, num := n))
  {
    if n >= 10 {
      RunDigits(st, n / 10);
      RunSnoc(st, Decimal(n / 10), DIGIT_ZERO + n % 10, st.(c := DIGIT_ZERO + (n / 10) % 10, num := n / 10));
      assert (n / 10 * 10 + n % 10) % UINT32_MODULUS == n;
    } else {
      assert Decimal(n) == [] + [DIGIT_ZERO + n];
      RunSnoc(st, [], DIGIT_ZERO + n, st);
    }
  }

  /** A comma followed by a label: the number read before it goes, truncated, into `stats[j]`.
      The byte right after the comma (here the label's leading space) is never looked at. */
  lemma {:induction false} RunSeparator(st: ParseState, text: string)
    requires st.c != COMMA && st.j < |st.stats|
    requires IsPlainText(text) && text != []
    ensures Run(st, Separated(text)) == Some(ParseState(text[|text| - 1] as int, 0, st.j + 1, st.stats[st.j := st.num % 256]))
  {
    PlainBytes(text);
    var bs := Bytes(text);
    RunAppend(st, [COMMA], bs);
    assert [COMMA][..0] == [];
    var afterComma := st.(c := COMMA);
    assert Run(st, [COMMA]) == Some(afterComma);
    var stored := ParseState(bs[0], 0, st.j + 1, st.stats[st.j := st.num % 256]);
    assert [bs[0]][..0] == [];
    assert Run(afterComma, [bs[0]]) == Some(stored);
    RunAppend(afterComma, [bs[0]], bs[1..]);
    assert [bs[0]] + bs[1..] == bs;
    RunPlain(stored, bs[1..]);
  }

  /** A comma, a label ending in a space and `%d` of `n`: the number read before the comma is
      stored, truncated, into `stats[j]` and `n` is accumulated afresh. */
  lemma RunField(st: ParseState, text: string, n: uint8)
    requires st.c != COMMA && st.j < |st.stats|
    requires FieldLabel(text)
    ensures Run(st, Separated(text) + Decimal(n)) == Some(AfterField(st, n))
  {
    RunAppend(st, Separated(text), Decimal(n));
    RunSeparator(st, text);
    RunDigits(ParseState(SPACE, 0, st.j + 1, st.stats[st.j := st.num % 256]), n);
  }

  /** The first field: the label passes through `c` and `%d` of `n` is accumulated. */
  lemma RunFirstField(text: string, n: uint8)
    requires IsPlainText(text) && text != []
    ensures Run(PARSE_START, Bytes(text) + Decimal(n))
         == Some(ParseState(DIGIT_ZERO + n % 10, n, 0, [0, 0, 0, 0]))
  {
    PlainBytes(text);
    var l1 := Bytes(text);
    RunPlain(PARSE_START, l1);
    var s1 := PARSE_START.(c := l1[|l1| - 1]);
    RunDigits(s1, n);
    RunThen(PARSE_START, l1, Decimal(n), s1, Some(s1.(c := DIGIT_ZERO + n % 10, num := n)));
  }

  /** Running over `x + y` is running over `x`, then over `y` from where `x` left off. */
  lemma RunThen(st: ParseState, x: seq<uint8>, y: seq<uint8>, mid: ParseState, r: Option<ParseState>)
    requires Run(st, x) == Some(mid) && Run(mid, y) == r
    ensures Run(st, x + y) == r
  {
    RunAppend(st, x, y);
  }

  /** The stored line, grouped into its first field, the other three and "\r\n". */
  lemma ScoreLineFields(a: uint8, b: uint8, c: uint8, d: uint8)
    ensures forall i | 0 <= i < |NUCLEO_LABEL| :: NUCLEO_LABEL[i] as int < 256
    ensures IsPlainText(DISC_LABEL) && IsPlainText(TIES_LABEL) && IsPlainText(ERROR_LABEL)
    ensures ScoreLine(a, b, c, d)
         == Bytes(NUCLEO_LABEL) + Decimal(a)
          + (Separated(DISC_LABEL) + Decimal(b) + (Separated(TIES_LABEL) + Decimal(c)) + (Separated(ERROR_LABEL) + Decimal(d)))
          + [CARRIAGE_RETURN, NEWLINE]
  {
    LabelFacts();
    Regroup(Bytes(NUCLEO_LABEL) + Decimal(a), Separated(DISC_LABEL), Decimal(b), Separated(TIES_LABEL), Decimal(c),
            Separated(ERROR_LABEL), Decimal(d), [CARRIAGE_RETURN, NEWLINE]);
  }

  lemma Regroup<T>(p: seq<T>, a1: seq<T>, a2: seq<T>, b1: seq<T>, b2: seq<T>, c1: seq<T>, c2: seq<T>, e: seq<T>)
    ensures p + a1 + a2 + b1 + b2 + c1 + c2 + e == p + (a1 + a2 + (b1 + b2) + (c1 + c2)) + e
  {
  }

  /** The state a comma-led field leaves behind, `n` having been read after it. */
  function AfterField(st: ParseState, n: uint8): ParseState
    requires st.j < |st.stats|
  {
    ParseState(DIGIT_ZERO + n % 10, n, st.j + 1, st.stats[st.j := st.num % 256])
  }

  /** A label that can follow a comma in the stored line: plain text ending in a space. */
  predicate FieldLabel(text: string) {
    IsPlainText(text) && text != [] && text[|text| - 1] == ' '
  }

  /** Running over three pieces in a row. */
  lemma RunThen3(st: ParseState, x: seq<uint8>, y: seq<uint8>, z: seq<uint8>, m1: ParseState, m2: ParseState, m3: ParseState)
    requires Run(st, x) == Some(m1) && Run(m1, y) == Some(m2) && Run(m2, z) == Some(m3)
    ensures Run(st, x + y + z) == Some(m3)
  {
    RunThen(st, x, y, m1, Some(m2));
    RunThen(st, x + y, z, m2, Some(m3));
  }

  /** The parse of a stored line ends with Nucleo's, Disc's and the tie count in `stats[0..2]`;
      the game-error count is accumulated in `num` but, with no comma after it, never stored. */
  lemma ParseScoreLine(a: uint8, b: uint8, c: uint8, d: uint8)
    ensures Run(PARSE_START, ScoreLine(a, b, c, d)) == Some(ParseState(NEWLINE, d, 3, [a, b, c, 0]))
  {
    ScoreLineFields(a, b, c, d);
    LabelFacts();
    var s2 := ParseState(DIGIT_ZERO + a % 10, a, 0, [0, 0, 0, 0]);
    var s5 := AfterField(AfterField(AfterField(s2, b), c), d);
    RunFirstField(NUCLEO_LABEL, a);
    RunFieldsTail(s2, DISC_LABEL, TIES_LABEL, ERROR_LABEL, b, c, d);
    assert s5.c == DIGIT_ZERO + d % 10;
    RunLine(Bytes(NUCLEO_LABEL) + Decimal(a),
            Separated(DISC_LABEL) + Decimal(b) + (Separated(TIES_LABEL) + Decimal(c)) + (Separated(ERROR_LABEL) + Decimal(d)),
            s2, s5);
    assert a % 256 == a && b % 256 == b && c % 256 == c;
    assert s5.stats == [a, b, c, 0];
  }

  /** "\r\n" only passes through `c`. */
  lemma RunLineEnd(st: ParseState)
    requires st.c != COMMA
    ensures Run(st, [CARRIAGE_RETURN, NEWLINE]) == Some(st.(c := NEWLINE))
  {
    RunPlain(st, [CARRIAGE_RETURN, NEWLINE]);
  }

  /** The three comma-led fields, each with its number. */
  lemma RunFieldsTail(st: ParseState, t1: string, t2: string, t3: string, b: uint8, c: uint8, d: uint8)
    requires st.c != COMMA && st.j + 3 <= |st.stats|
    requires FieldLabel(t1) && FieldLabel(t2) && FieldLabel(t3)
    ensures Run(st, Separated(t1) + Decimal(b) + (Separated(t2) + Decimal(c)) + (Separated(t3) + Decimal(d)))
         == Some(AfterField(AfterField(AfterField(st, b), c), d))
  {
    var s3 := AfterField(st, b);
    var s4 := AfterField(s3, c);
    RunField(st, t1, b);
    RunField(s3, t2, c);
    RunField(s4, t3, d);
    RunThen3(st, Separated(t1) + Decimal(b), Separated(t2) + Decimal(c), Separated(t3) + Decimal(d), s3, s4, AfterField(s4, d));
  }

  /** A first field, the three comma-led fields and "\r\n", each run from where the previous
      one left off. */
  lemma RunLine(x: seq<uint8>, y: seq<uint8>, s2: ParseState, s5: ParseState)
    requires Run(PARSE_START, x) == Some(s2) && Run(s2, y) == Some(s5) && s5.c != COMMA
    ensures Run(PARSE_START, x + y + [CARRIAGE_RETURN, NEWLINE]) == Some(s5.(c := NEWLINE))
  {
    RunLineEnd(s5);
    RunThen3(PARSE_START, x, y, [CARRIAGE_RETURN, NEWLINE], s2, s5, s5.(c := NEWLINE));
  }

  /** The scan stops at the first newline when there is one among the first 256 bytes. */
  lemma {:induction false} FirstNewlineAt(s: seq<uint8>, k: nat)
    requires k < |s| && s[k] == NEWLINE
    requires forall i | 0 <= i < k :: s[i] != NEWLINE
    ensures FirstNewline(s) == k
  {
    if k > 0 {
      assert s[0] != NEWLINE;
      FirstNewlineAt(s[1..], k - 1);
    }
  }

  lemma ScanFinds(sram: seq<uint8>, k: nat)
    requires |sram| >= 256 && k < 256 && sram[k] == NEWLINE
    requires forall i | 0 <= i < k :: sram[i] != NEWLINE
    ensures ScanSpec(sram) == Found((k + 1) % 256)
  {
    FirstNewlineAt(sram[..256], k);
  }

  /** Load after store: with the stored line, its NUL and whatever SRAM held after them, the
      load restores Nucleo's wins, Disc's wins and the ties exactly, and the game-error
      count always comes back as 0. */
  lemma LoadAfterStore(a: uint8, b: uint8, c: uint8, d: uint8, rest: seq<uint8>)
    requires |ScoreLine(a, b, c, d)| + 1 + |rest| >= 256
    ensures LoadSpec(ScoreLine(a, b, c, d) + [0] + rest) == Loaded(Score(a, b, c, 0))
  {
    var line := ScoreLine(a, b, c, d);
    StoredLineScans(a, b, c, d);
    ParseStoredLine(a, b, c, d);
    LoadLine(line, [0] + rest, [a, b, c, 0]);
    assert line + [0] + rest == line + ([0] + rest);
  }

  /** What the scan needs of the stored line: under 256 bytes, and a newline only at its end. */
  lemma StoredLineScans(a: uint8, b: uint8, c: uint8, d: uint8)
    ensures var line := ScoreLine(a, b, c, d);
      && 1 <= |line| <= 255 && line[|line| - 1] == NEWLINE && NoByte(line[..|line| - 1], NEWLINE)
  {
    ScoreLineShape(a, b, c, d);
  }

  /** Loading a memory that starts with a line ending in its only newline: the counters are what
      the parse of that line leaves. */
  lemma LoadLine(line: seq<uint8>, rest: seq<uint8>, stats: seq<uint8>)
    requires 1 <= |line| <= 255 && |line| + |rest| >= 256
    requires line[|line| - 1] == NEWLINE && NoByte(line[..|line| - 1], NEWLINE)
    requires ParseSpec(line) == Some(stats)
    ensures LoadSpec(line + rest) == Loaded(Score(stats[0], stats[1], stats[2], stats[3]))
  {
    ScanLine(line, rest);
  }

  /** The parse of the stored line alone. */
  lemma ParseStoredLine(a: uint8, b: uint8, c: uint8, d: uint8)
    ensures ParseSpec(ScoreLine(a, b, c, d)) == Some([a, b, c, 0])
  {
    ParseScoreLine(a, b, c, d);
  }

  /** A memory that starts with a line of at most 255 bytes whose only newline is its last byte:
      the scan finds its length, and the parse sees exactly that line. */
  lemma ScanLine(line: seq<uint8>, rest: seq<uint8>)
    requires 1 <= |line| <= 255 && |line| + |rest| >= 256
    requires line[|line| - 1] == NEWLINE && NoByte(line[..|line| - 1], NEWLINE)
    ensures ScanSpec(line + rest) == Found(|line|)
    ensures (line + rest)[..|line|] == line
  {
    var mem := line + rest;
    forall i | 0 <= i < |line| - 1 ensures mem[i] != NEWLINE {
      assert line[..|line| - 1][i] == mem[i];
    }
    ScanFinds(mem, |line| - 1);
  }

  /** The same, for a memory that holds the stored line at its base. */
  lemma LoadHeldLine(mem: seq<uint8>, s: Score)
    requires |mem| >= 256 && HoldsLine(mem, s)
    ensures LoadSpec(mem) == Loaded(Score(s.nucleoWins, s.discWins, s.ties, 0))
  {
    var line := ScoreLine(s.nucleoWins, s.discWins, s.ties, s.gameErr);
    assert mem == line + [0] + mem[|line| + 1..];
    LoadAfterStore(s.nucleoWins, s.discWins, s.ties, s.gameErr, mem[|line| + 1..]);
  }

  /** A newline at index 255 gives text length `(255 + 1) mod 256 == 0`: nothing is parsed and
      all four counters load as 0. */
  lemma LoadNewlineAt255(sram: seq<uint8>)
    requires |sram| >= 256
    requires NoByte(sram[..255], NEWLINE) && sram[255] == NEWLINE
    ensures LoadSpec(sram) == Loaded(ZERO_SCORE)
  {
    forall i | 0 <= i < 255 ensures sram[i] != NEWLINE {
      assert sram[..255][i] == sram[i];
    }
    ScanFinds(sram, 255);
    assert sram[..0] == [];
  }

  /** Without a newline among the first 256 bytes the load never returns. */
  lemma LoadWithoutNewline(sram: seq<uint8>)
    requires |sram| >= 256
    requires NoByte(sram[..256], NEWLINE)
    ensures LoadSpec(sram) == ScanNeverEnds
  {
    forall i | 0 <= i < 256 ensures sram[i] != NEWLINE {
      assert sram[..256][i] == sram[i];
    }
  }

  /** Running over one more byte is one more step from where the run left off. */
  lemma RunSnoc(st: ParseState, bs: seq<uint8>, b: uint8, mid: ParseState)
    requires Run(st, bs) == Some(mid)
    ensures Run(st, bs + [b]) == Step(mid, b)
  {
    assert (bs + [b])[..|bs|] == bs;
  }

  /** "1,23,\\n" loads as 1 and 3: the digit right after a comma is read into `c` but never
      accumulated. */
  lemma DigitAfterCommaDropped()
    ensures ParseSpec([49, 44, 50, 51, 44, 10]) == Some([1, 3, 0, 0])
  {
    var p1: seq<uint8> := [49];
    RunSnoc(PARSE_START, [], 49, PARSE_START);
    var s1 := ParseState(49, 1, 0, [0, 0, 0, 0]);
    RunSnoc(PARSE_START, p1, 44, s1);
    var s2 := ParseState(44, 1, 0, [0, 0, 0, 0]);
    RunSnoc(PARSE_START, p1 + [44], 50, s2);
    var s3 := ParseState(50, 0, 1, [1, 0, 0, 0]);
    assert [0, 0, 0, 0][0 := 1] == s3.stats;
    RunSnoc(PARSE_START, p1 + [44] + [50], 51, s3);
    var s4 := ParseState(51, 3, 1, [1, 0, 0, 0]);
    RunSnoc(PARSE_START, p1 + [44] + [50] + [51], 44, s4);
    var s5 := ParseState(44, 3, 1, [1, 0, 0, 0]);
    RunSnoc(PARSE_START, p1 + [44] + [50] + [51] + [44], 10, s5);
    assert [1, 0, 0, 0][1 := 3] == [1, 3, 0, 0];
    assert p1 + [44] + [50] + [51] + [44] + [10] == [49, 44, 50, 51, 44, 10];
  }

  /** "300, \\n" loads the first counter as 300 mod 256 == 44: `num` is truncated to 8 bits
      when stored. */
  lemma StoredCounterTruncated()
    ensures ParseSpec([51, 48, 48, 44, 32, 10]) == Some([44, 0, 0, 0])
  {
    var p1: seq<uint8> := [51];
    RunSnoc(PARSE_START, [], 51, PARSE_START);
    var s1 := ParseState(51, 3, 0, [0, 0, 0, 0]);
    RunSnoc(PARSE_START, p1, 48, s1);
    var s2 := ParseState(48, 30, 0, [0, 0, 0, 0]);
    RunSnoc(PARSE_START, p1 + [48], 48, s2);
    var s3 := ParseState(48, 300, 0, [0, 0, 0, 0]);
    RunSnoc(PARSE_START, p1 + [48] + [48], 44, s3);
    var s4 := ParseState(44, 300, 0, [0, 0, 0, 0]);
    RunSnoc(PARSE_START, p1 + [48] + [48] + [44], 32, s4);
    var s5 := ParseState(32, 0, 1, [44, 0, 0, 0]);
    assert [0, 0, 0, 0][0 := 300 % 256] == s5.stats;
    RunSnoc(PARSE_START, p1 + [48] + [48] + [44] + [32], 10, s5);
    assert p1 + [48] + [48] + [44] + [32] + [10] == [51, 48, 48, 44, 32, 10];
  }

  /** ",,,,,\\n": the newline after the fifth comma would be stored into `stats[4]`, past the
      array. */
  lemma FifthCommaOverruns()
    ensures ParseSpec([44, 44, 44, 44, 44, 10]) == None
  {
    var zero: seq<uint8> := [0, 0, 0, 0];
    var p1: seq<uint8> := [44];
    RunSnoc(PARSE_START, [], 44, PARSE_START);
    RunSnoc(PARSE_START, p1, 44, ParseState(44, 0, 0, zero));
    assert zero[0 := 0] == zero;
    RunSnoc(PARSE_START, p1 + [44], 44, ParseState(44, 0, 1, zero));
    assert zero[1 := 0] == zero;
    RunSnoc(PARSE_START, p1 + [44] + [44], 44, ParseState(44, 0, 2, zero));
    assert zero[2 := 0] == zero;
    RunSnoc(PARSE_START, p1 + [44] + [44] + [44], 44, ParseState(44, 0, 3, zero));
    assert zero[3 := 0] == zero;
    RunSnoc(PARSE_START, p1 + [44] + [44] + [44] + [44], 10, ParseState(44, 0, 4, zero));
    assert p1 + [44] + [44] + [44] + [44] + [10] == [44, 44, 44, 44, 44, 10];
  }
}
