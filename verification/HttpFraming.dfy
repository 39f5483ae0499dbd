/**
 The body framing of section 6.3 of RFC 9112, taken from the field lines of an HTTP/1.1 response
 that may have a body, and where the reader's framing agrees with it.

 The status line stands among the lines; it is neither of the two fields that matter. A limit
 on the length of a body is a choice the standard leaves to the recipient.
 */
module HttpFraming {
  import opened Wrappers
  import opened HttpReader

  datatype Verdict = Invalid | Valid(framing: Framing)

  // ---------- field lines ----------

  function TrimOwsStart(s: string): string {
    if s != "" && IsOws(s[..1]) then TrimOwsStart(s[1..]) else s
  }

  function TrimOwsEnd(s: string): string {
    if s != "" && IsOws(s[|s| - 1..]) then TrimOwsEnd(s[..|s| - 1]) else s
  }

  function TrimOws(s: string): string {
    TrimOwsEnd(TrimOwsStart(s))
  }

  /** A line that starts with white space continues the one before it (section 5.2). */
  predicate IsFold(line: string) {
    line != "" && IsOws(line[..1])
  }

  function Unfold(lines: seq<string>): seq<string>
    decreases |lines|
  {
    if |lines| < 2 then lines
    else if IsFold(lines[1]) then Unfold([lines[0] + " " + lines[1]] + lines[2..])
    else [lines[0]] + Unfold(lines[1..])
  }

  predicate IsNamed(line: string, name: string) {
    Index(line, ':') < |line| && Lower(line[..Index(line, ':')]) == name
  }

  function FieldValue(line: string): string
    requires Index(line, ':') < |line|
  {
    line[Index(line, ':') + 1..]
  }

  /** The elements of a comma-separated list; empty ones are ignored (section 5.6.1 of RFC 9110). */
  function Members(s: string): seq<string>
    decreases |s|
  {
    var i := Index(s, ',');
    var head := TrimOws(s[..i]);
    (if head == "" then [] else [head]) + if i == |s| then [] else Members(s[i + 1..])
  }

  predicate HasField(lines: seq<string>, name: string) {
    exists i | 0 <= i < |lines| :: IsNamed(lines[i], name)
  }

  /** The list that all fields of one name make up together. */
  function ListOf(lines: seq<string>, name: string): seq<string> {
    if lines == [] then []
    else (if IsNamed(lines[0], name) then Members(FieldValue(lines[0])) else []) + ListOf(lines[1..], name)
  }

  // ---------- the standard ----------

  const CODING := "transfer-encoding"
  const LENGTH := "content-length"

  /** Chunked is the final transfer coding. */
  predicate FinallyChunked(lines: seq<string>) {
    var codings := ListOf(lines, CODING);
    codings != [] && Lower(codings[|codings| - 1]) == "chunked"
  }

  /** All lengths are decimal numbers, and the same. */
  predicate OneLength(lengths: seq<string>) {
    && lengths != []
    && forall i | 0 <= i < |lengths| ::
         lengths[i] != "" && AllDigits(lengths[i], 10) && Value(lengths[i], 10) == Value(lengths[0], 10)
  }

  /** Transfer-Encoding overrides Content-Length; without either, the body ends with the connection. */
  function StandardFraming(lines: seq<string>): Verdict {
    if FinallyChunked(lines) then Valid(Chunked)
    else if HasField(lines, CODING) || !HasField(lines, LENGTH) then Valid(UntilClose)
    else if !OneLength(ListOf(lines, LENGTH)) then Invalid
    else
      var n := Value(ListOf(lines, LENGTH)[0], 10);
      Valid(if n > MAX_BODY then Refused else Fixed(n))
  }

  /** The number the reader takes from the Content-Length lines, zero when it reads none. */
  function LengthRead(lines: seq<string>): nat {
    var length := Parsed(lines).length;
    if length.Some? then length.value else 0
  }

  /**
   For every header section, folded lines included, the reader's framing is the standard's
   exactly in these cases.
   */
  lemma FramingIsStandardIff(lines: seq<string>)
    ensures var fields, n := Unfold(lines), LengthRead(lines);
      Valid(FramingOf(Parsed(lines))) == StandardFraming(fields) <==>
        if FinallyChunked(fields) then n == 0 && AnyChunked(lines)
        else if HasField(fields, CODING) || !HasField(fields, LENGTH) then n == 0 && !AnyChunked(lines)
        else
          var lengths := ListOf(fields, LENGTH);
          && n > 0 && OneLength(lengths)
          && (n == Value(lengths[0], 10) || (n > MAX_BODY && Value(lengths[0], 10) > MAX_BODY))
  {
    hide FinallyChunked, HasField, OneLength, ListOf, Unfold, First, AnyChunked, Value;
  }

  // ---------- sections without folded lines ----------

  predicate IsUnfolded(lines: seq<string>) {
    forall i | 0 <= i < |lines| :: !IsFold(lines[i])
  }

  lemma {:induction false} UnfoldKeeps(lines: seq<string>)
    requires IsUnfolded(lines)
    ensures Unfold(lines) == lines
    decreases |lines|
  {
    if |lines| >= 2 {
      UnfoldKeeps(lines[1..]);
    }
  }

  lemma LowerAt(s: string, i: nat)
    requires i < |s|
    ensures Lower(s)[i] == ':' <==> s[i] == ':'
    ensures Lower(s)[i] == ',' <==> s[i] == ','
  {
  }

  /** The reader finds the Content-Length lines the standard names. */
  lemma LengthPrefix(line: string)
    ensures IsNamed(line, LENGTH) <==> "content-length:" <= Lower(line)
  {
    if IsNamed(line, LENGTH) {
      var i := Index(line, ':');
      assert |Lower(line[..i])| == i == 14;
      LowerPrefix(line[..i], line[i..], LENGTH) by {
        forall k | 0 <= k < i ensures Lower(line[..i])[k] == LENGTH[k] {}
      }
      assert line[..i] + line[i..] == line;
      LowerAt(line, 14);
      assert Lower(line)[..14] == LENGTH && Lower(line)[14] == ':';
      assert Lower(line)[..15] == "content-length:";
    } else if "content-length:" <= Lower(line) {
      PrefixNames(line);
    }
  }

  lemma PrefixNames(line: string)
    requires "content-length:" <= Lower(line)
    ensures IsNamed(line, LENGTH)
  {
    assert Lower(line)[14] == "content-length:"[14];
    LowerAt(line, 14);
    forall k | 0 <= k < 14 ensures line[k] != ':' {
      LowerAt(line, k);
      assert Lower(line)[k] == "content-length:"[k];
    }
    assert ':' !in line[..14];
    IndexIs(line, ':', 14);
    forall k | 0 <= k < 14 ensures Lower(line[..14])[k] == LENGTH[k] {
      assert line[..14][k] == line[k] && Lower(line)[k] == "content-length:"[k];
    }
    assert Lower(line[..14]) == LENGTH;
  }

  // ---------- without folded lines, a final chunked coding is always seen ----------

  lemma {:induction false} StartIsPart(s: string) returns (a: nat)
    ensures a <= |s| && TrimOwsStart(s) == s[a..] && IsOws(s[..a])
  {
    a := 0;
    if s != "" && IsOws(s[..1]) {
      var b := StartIsPart(s[1..]);
      a := b + 1;
      assert s[1..][b..] == s[a..] && s[..a] == s[..1] + s[1..][..b];
    }
  }

  lemma {:induction false} EndIsPart(s: string) returns (b: nat)
    ensures b <= |s| && TrimOwsEnd(s) == s[..b] && IsOws(s[b..])
  {
    b := |s|;
    if s != "" && IsOws(s[|s| - 1..]) {
      var init := s[..|s| - 1];
      b := EndIsPart(init);
      assert init[..b] == s[..b] && s[b..] == init[b..] + s[|s| - 1..];
    }
  }

  /** Trimming takes white space off both ends and nothing else. */
  lemma TrimOwsSplits(s: string) returns (before: string, after: string)
    ensures s == before + TrimOws(s) + after && IsOws(before) && IsOws(after)
  {
    var a := StartIsPart(s);
    var b := EndIsPart(s[a..]);
    before, after := s[..a], s[a..][b..];
    assert s == s[..a] + (s[a..][..b] + s[a..][b..]);
  }

  lemma PartOfSplit(before: string, m: string, rest: string)
    ensures (before + m + rest)[|before|..][..|m|] == m
  {
    assert before + m + rest == before + (m + rest);
  }

  lemma MemberCases(s: string, m: string)
    requires m in Members(s)
    ensures var i := Index(s, ','); m == TrimOws(s[..i]) || (i < |s| && m in Members(s[i + 1..]))
  {
  }

  lemma {:induction false} MemberIsPart(s: string, m: string) returns (a: nat)
    requires m in Members(s)
    ensures a + |m| <= |s| && s[a..][..|m|] == m
    decreases |s|
  {
    hide Members, TrimOws;
    var i := Index(s, ',');
    MemberCases(s, m);
    if m == TrimOws(s[..i]) {
      var before, after := TrimOwsSplits(s[..i]);
      a := |before|;
      PartOfSplit(before, m, after + s[i..]);
      assert s == s[..i] + s[i..];
      assert s == before + m + (after + s[i..]);
    } else {
      var b := MemberIsPart(s[i + 1..], m);
      a := b + i + 1;
      assert s[i + 1..][b..] == s[a..];
    }
  }

  lemma {:induction false} ListMember(lines: seq<string>, name: string, m: string) returns (i: nat)
    requires m in ListOf(lines, name)
    ensures i < |lines| && IsNamed(lines[i], name) && m in Members(FieldValue(lines[i]))
  {
    hide Members, FieldValue, Lower;
    if IsNamed(lines[0], name) && m in Members(FieldValue(lines[0])) {
      i := 0;
    } else {
      assert m in ListOf(lines[1..], name);
      var k := ListMember(lines[1..], name, m);
      i := k + 1;
    }
  }

  lemma LowerPart(s: string, a: nat, part: string, lower: string)
    requires a + |part| <= |s| && s[a..][..|part|] == part && Lower(part) == lower
    ensures lower <= Lower(s)[a..]
  {
    forall k | 0 <= k < |part| ensures Lower(s)[a..][k] == lower[k] {
      assert s[a..][..|part|][k] == part[k] && Lower(part)[k] == lower[k];
    }
    assert Lower(s)[a..][..|part|] == lower;
  }

  lemma ChunkedMemberIsSeen(line: string, m: string)
    requires IsNamed(line, CODING) && m in Members(FieldValue(line)) && Lower(m) == "chunked"
    ensures SaysChunked(line)
  {
    hide Members;
    var i := Index(line, ':');
    var a := MemberIsPart(FieldValue(line), m);
    assert line[i + 1..][a..] == line[i + 1 + a..];
    LowerPart(line, i + 1 + a, m, "chunked");
    LowerPart(line, 0, line[..i], CODING);
    assert Lower(line)[0..] == Lower(line);
  }

  /** Whatever the other lines hold: the line of the final coding has both words, unless it is folded. */
  lemma FinalCodingIsSeen(lines: seq<string>)
    requires FinallyChunked(lines)
    ensures AnyChunked(lines)
  {
    hide ListOf, SaysChunked, AnyChunked, IsNamed;
    var codings := ListOf(lines, CODING);
    var m := codings[|codings| - 1];
    var i := ListMember(lines, CODING, m);
    ChunkedMemberIsSeen(lines[i], m);
    AnyChunkedMeans(lines);
  }

  // ---------- what the reader makes of valid lengths ----------

  lemma SpaceFound(s: string)
    ensures SpaceAtFront(s) > 0 ==> IsSpace(s[..SpaceAtFront(s)])
    ensures SpaceAtBack(s) > 0 ==> IsSpace(s[|s| - SpaceAtBack(s)..])
  {
    hide IsSpace;
  }

  lemma {:induction false} CommaSurvivesStart(s: string)
    requires ',' in s
    ensures ',' in TrimStart(s)
  {
    hide IsSpace, SpaceAtFront;
    var k := SpaceAtFront(s);
    if k > 0 {
      SpaceFound(s);
      SpaceHasNoComma(s[..k]);
      assert s == s[..k] + s[k..];
      CommaSurvivesStart(s[k..]);
    }
  }

  lemma {:induction false} CommaSurvivesEnd(s: string)
    requires ',' in s
    ensures ',' in TrimEnd(s)
  {
    hide IsSpace, SpaceAtBack;
    var k := SpaceAtBack(s);
    if k > 0 {
      SpaceFound(s);
      SpaceHasNoComma(s[|s| - k..]);
      assert s == s[..|s| - k] + s[|s| - k..];
      CommaSurvivesEnd(s[..|s| - k]);
    }
  }

  lemma SpaceHasNoComma(s: string)
    requires IsSpace(s)
    ensures ',' !in s
  {
    if |s| == 1 {
    } else if |s| == 2 {
      assert s == [s[0], s[1]];
    } else {
      assert s == [s[0], s[1], s[2]];
    }
  }

  /** A list of lengths is no number to the reader. */
  lemma ListIsNoNumber(value: string, max: nat)
    requires ',' in value
    ensures Parse(Trim(value), 10, max) == None
  {
    hide TrimStart, TrimEnd, Value;
    CommaSurvivesStart(value);
    CommaSurvivesEnd(TrimStart(value));
    var t := Trim(value);
    var i :| 0 <= i < |t| && t[i] == ',';
    assert Digit(t[i]) == 255;
    if t[0] == '+' {
      assert t[1..][i - 1] == ',';
    }
  }

  lemma {:induction false} OwsIsAllTrimmed(pad: string)
    requires IsOws(pad)
    ensures TrimStart(pad) == ""
  {
    if pad != "" {
      assert pad[..1] == [pad[0]];
      OwsIsAllTrimmed(pad[1..]);
    }
  }

  lemma BlankIsNoNumber(value: string, max: nat)
    requires TrimOws(value) == ""
    ensures Parse(Trim(value), 10, max) == None
  {
    var before, after := TrimOwsSplits(value);
    assert value == before + after;
    OwsIsAllTrimmed(value);
  }

  lemma SingleIsRead(value: string, max: nat)
    requires TrimOws(value) != "" && AllDigits(TrimOws(value), 10)
    ensures Parse(Trim(value), 10, max) ==
      if Value(TrimOws(value), 10) <= max then Some(Value(TrimOws(value), 10)) else None
  {
    hide Parse, Trim, TrimOws, AllDigits;
    var before, after := TrimOwsSplits(value);
    PaddedNumberIsTrimmed(before, TrimOws(value), after);
    NumberIsParsed(TrimOws(value), 10, max);
  }

  lemma MemberHasNoColon(s: string)
    requires AllDigits(TrimOws(s), 10)
    ensures ':' !in s
  {
    hide TrimOws, AllDigits;
    var before, after := TrimOwsSplits(s);
    NumberHasNoColon(before, TrimOws(s), after);
  }

  lemma MembersFromFirst(s: string)
    ensures var i := Index(s, ',');
      && (TrimOws(s[..i]) != "" ==> TrimOws(s[..i]) in Members(s))
      && (i < |s| ==> forall m | m in Members(s[i + 1..]) :: m in Members(s))
  {
  }

  /** Every character of a list is a comma, white space or part of a member. */
  lemma {:induction false} ListOfNumbersHasNoColon(s: string)
    requires forall m | m in Members(s) :: AllDigits(m, 10)
    ensures ':' !in s
    decreases |s|
  {
    hide Members, TrimOws;
    var i := Index(s, ',');
    MembersFromFirst(s);
    MemberHasNoColon(s[..i]);
    if i < |s| {
      ListOfNumbersHasNoColon(s[i + 1..]);
      assert s == s[..i] + [','] + s[i + 1..];
    }
  }

  /** A Content-Length line that is one number rather than a list or blank. */
  predicate IsSingle(line: string) {
    IsNamed(line, LENGTH) && ',' !in FieldValue(line) && TrimOws(FieldValue(line)) != ""
  }

  lemma SingleMember(value: string)
    requires ',' !in value && TrimOws(value) != ""
    ensures Members(value) == [TrimOws(value)]
  {
    IndexOfNone(value, ',');
    assert value[..|value|] == value;
  }

  lemma SecondFieldOfNamed(line: string)
    requires Index(line, ':') < |line| && ':' !in FieldValue(line)
    ensures SecondField(line) == FieldValue(line)
  {
    hide Index, SecondField;
    var i := Index(line, ':');
    var name, value := line[..i], line[i + 1..];
    assert value == FieldValue(line);
    assert line == name + ":" + value;
    SecondFieldIs(name, value);
  }

  /** What the reader takes from one Content-Length line whose members are all the number `v`. */
  lemma LengthLineOf(line: string, v: nat)
    requires IsNamed(line, LENGTH)
    requires forall m | m in Members(FieldValue(line)) :: AllDigits(m, 10) && Value(m, 10) == v
    ensures LengthOf(line) == if IsSingle(line) && v < USIZE then Some(v) else None
  {
    hide Members, Parse, Trim, TrimOws, AllDigits, Value, SecondField, Index;
    var value := FieldValue(line);
    LengthPrefix(line);
    ListOfNumbersHasNoColon(value);
    SecondFieldOfNamed(line);
    if ',' in value {
      ListIsNoNumber(value, USIZE - 1);
    } else if TrimOws(value) == "" {
      BlankIsNoNumber(value, USIZE - 1);
    } else {
      SingleMember(value);
      assert TrimOws(value) in Members(value);
      SingleIsRead(value, USIZE - 1);
    }
  }

  lemma {:induction false} MembersAreListed(lines: seq<string>, name: string, i: nat)
    requires i < |lines| && IsNamed(lines[i], name)
    ensures forall m | m in Members(FieldValue(lines[i])) :: m in ListOf(lines, name)
  {
    if i > 0 {
      MembersAreListed(lines[1..], name, i - 1);
    }
  }

  predicate AnySingle(lines: seq<string>) {
    exists i | 0 <= i < |lines| :: IsSingle(lines[i])
  }

  /** With one valid length, the reader finds it exactly if some line states it as a single number. */
  lemma ValidLengthIsRead(lines: seq<string>)
    requires OneLength(ListOf(lines, LENGTH))
    ensures var v := Value(ListOf(lines, LENGTH)[0], 10);
      First(LengthOf, lines) == if AnySingle(lines) && v < USIZE then Some(v) else None
  {
    hide ListOf, LengthOf, Members, First, Value, AllDigits, IsSingle, FieldValue;
    var lengths := ListOf(lines, LENGTH);
    var v := Value(lengths[0], 10);
    forall i | 0 <= i < |lines|
      ensures LengthOf(lines[i]) == if IsSingle(lines[i]) && v < USIZE then Some(v) else None
    {
      if IsNamed(lines[i], LENGTH) {
        MembersAreListed(lines, LENGTH, i);
        NumbersOf(lengths);
        LengthLineOf(lines[i], v);
      } else {
        UnnamedIsNone(lines[i]);
      }
    }
    FirstIsFirst(LengthOf, lines);
  }

  lemma NumbersOf(lengths: seq<string>)
    requires OneLength(lengths)
    ensures forall m | m in lengths :: AllDigits(m, 10) && Value(m, 10) == Value(lengths[0], 10)
  {
  }

  lemma UnnamedIsNone(line: string)
    requires !IsNamed(line, LENGTH)
    ensures LengthOf(line) == None && !IsSingle(line)
  {
    LengthPrefix(line);
  }

  lemma NoLengthIsRead(lines: seq<string>)
    requires !HasField(lines, LENGTH)
    ensures First(LengthOf, lines) == None
  {
    hide LengthOf, IsNamed, First;
    forall i | 0 <= i < |lines|
      ensures LengthOf(lines[i]) == None
    {
      UnnamedIsNone(lines[i]);
    }
    FirstIsFirst(LengthOf, lines);
  }

  /**
   For every header section without folded lines, the framing is the standard's if and only if

   - chunked is the final transfer coding, and the reader takes no positive number from a
     Content-Length line; or
   - chunked is not the final one of the codings there are, and the reader neither takes such a
     number nor finds the words `transfer-encoding` and `chunked` together in any line; or
   - neither field is there, and it finds the words in no line; or
   - there are only lengths, all the same positive number, which fits `usize`, and at least one
     line states it alone.
   */
  lemma UnfoldedFramingIsStandardIff(lines: seq<string>)
    requires IsUnfolded(lines)
    ensures Valid(FramingOf(Parsed(lines))) == StandardFraming(lines) <==>
      if FinallyChunked(lines) then LengthRead(lines) == 0
      else if HasField(lines, CODING) then LengthRead(lines) == 0 && !AnyChunked(lines)
      else if !HasField(lines, LENGTH) then !AnyChunked(lines)
      else
        var lengths := ListOf(lines, LENGTH);
        OneLength(lengths) && AnySingle(lines) && 0 < Value(lengths[0], 10) < USIZE
  {
    hide FinallyChunked, HasField, OneLength, ListOf, Unfold, First, AnyChunked, Value, IsUnfolded, FramingOf, StandardFraming, AnySingle;
    UnfoldKeeps(lines);
    FramingIsStandardIff(lines);
    if FinallyChunked(lines) {
      FinalCodingIsSeen(lines);
    }
    if !HasField(lines, LENGTH) {
      NoLengthIsRead(lines);
    }
    if OneLength(ListOf(lines, LENGTH)) {
      ValidLengthIsRead(lines);
    }
  }

  lemma ContainsMore(prefix: string, s: string, part: string)
    requires Contains(Lower(s), part)
    ensures Contains(Lower(prefix + s), part)
  {
    var i :| 0 <= i <= |s| && part <= Lower(s)[i..];
    var long := Lower(prefix + s);
    forall k | 0 <= k < |part| ensures long[|prefix| + i..][k] == part[k] {
      assert Lower(s)[i..][k] == part[k];
    }
    assert long[|prefix| + i..][..|part|] == part;
  }

  lemma PrefixedCoding(prefix: string, field: string)
    requires Lower(field) == "transfer-encoding: chunked" && prefix != "" && ':' !in prefix
    ensures SaysChunked(prefix + field) && !IsNamed(prefix + field, LENGTH) && !IsNamed(prefix + field, CODING)
  {
    hide Contains;
    ChunkedFieldIsSeen(field);
    ContainsMore(prefix, field, "transfer-encoding");
    ContainsMore(prefix, field, "chunked");
    NameIsLonger(prefix, field);
  }

  lemma NameIsLonger(prefix: string, field: string)
    requires Lower(field) == "transfer-encoding: chunked" && ':' !in prefix
    ensures Index(prefix + field, ':') == |prefix| + 17
  {
    forall k | 0 <= k <= 17 ensures field[k] == ':' <==> k == 17 {
      LowerAt(field, k);
      assert Lower(field)[k] == "transfer-encoding: chunked"[k];
    }
    var line := prefix + field;
    forall k | 0 <= k < |prefix| + 17 ensures line[k] != ':' {
      if k >= |prefix| { assert line[k] == field[k - |prefix|]; }
    }
    assert ':' !in line[..|prefix| + 17];
    IndexIs(line, ':', |prefix| + 17);
  }

  lemma {:induction false} NoNames(lines: seq<string>, name: string)
    requires forall i | 0 <= i < |lines| :: !IsNamed(lines[i], name)
    ensures !HasField(lines, name) && ListOf(lines, name) == []
  {
    hide IsNamed;
    if lines != [] {
      NoNames(lines[1..], name);
    }
  }

  /** A field such as `X-Transfer-Encoding: chunked` means nothing, but makes the reader look for chunks. */
  lemma WordsInAnotherField(status: string, prefix: string, field: string)
    requires ':' !in status && prefix != "" && ':' !in prefix && Lower(field) == "transfer-encoding: chunked"
    ensures StandardFraming([status, prefix + field]) == Valid(UntilClose)
    ensures FramingOf(Parsed([status, prefix + field])) == Chunked
  {
    hide IsNamed, ListOf, HasField, SaysChunked, AnyChunked, First, Lower;
    var lines := [status, prefix + field];
    NoColon(status);
    PrefixedCoding(prefix, field);
    NoNames(lines, CODING);
    NoNames(lines, LENGTH);
    NoLengthIsRead(lines);
    assert SaysChunked(lines[1]);
    AnyChunkedMeans(lines);
  }

  lemma NoColon(status: string)
    requires ':' !in status
    ensures !IsNamed(status, LENGTH) && !IsNamed(status, CODING)
  {
    IndexOfNone(status, ':');
  }

  /** A coding on a continuation line escapes the reader: it reads until close, the standard says chunked. */
  lemma FoldedCodingEscapes(status: string, field: string, value: string)
    requires Lower(field) == "transfer-encoding:" && Lower(value) == "chunked" && ':' !in status
    requires !SaysChunked(status)
    ensures var lines := [status, field, " " + value];
      StandardFraming(Unfold(lines)) == Valid(Chunked) && FramingOf(Parsed(lines)) == UntilClose
  {
    hide IsNamed, SaysChunked, AnyChunked, First, Lower, ListOf, Members;
    var lines := [status, field, " " + value];
    FoldedLines(status, field, value);
    FoldedIsStandard(status, field, value);
    FoldedIsUnseen(status, field, value);
  }

  lemma FoldedLines(status: string, field: string, value: string)
    requires Lower(field) == "transfer-encoding:"
    ensures Unfold([status, field, " " + value]) == [status, field + " " + (" " + value)]
  {
    var lines, fold := [status, field, " " + value], " " + value;
    LowerAt(field, 0);
    assert Lower(field)[0] == "transfer-encoding:"[0];
    assert fold[..1] == " " && IsFold(fold);
    assert lines[1..] == [field, fold] && !IsFold(field);
    assert [field + " " + fold] + lines[1..][2..] == [field + " " + fold];
    assert Unfold([field, fold]) == [field + " " + fold];
  }

  lemma FoldedIsStandard(status: string, field: string, value: string)
    requires Lower(field) == "transfer-encoding:" && Lower(value) == "chunked" && ':' !in status
    ensures FinallyChunked([status, field + " " + (" " + value)])
  {
    hide Lower, Members;
    var line := field + " " + (" " + value);
    NoColon(status);
    CodingLine(field, "  " + value);
    assert line == field + ("  " + value);
    OneMember(value);
    assert ListOf([line], CODING) == Members("  " + value) + ListOf([], CODING);
    assert [status, line][1..] == [line];
    assert ListOf([status, line], CODING) == [value];
  }

  lemma CodingLine(field: string, rest: string)
    requires Lower(field) == "transfer-encoding:"
    ensures IsNamed(field + rest, CODING) && FieldValue(field + rest) == rest
  {
    forall k | 0 <= k <= 17 ensures field[k] == ':' <==> k == 17 {
      LowerAt(field, k);
      assert Lower(field)[k] == "transfer-encoding:"[k];
    }
    var line := field + rest;
    assert line[..17] == field[..17] && ':' !in field[..17];
    IndexIs(line, ':', 17);
    forall k | 0 <= k < 17 ensures Lower(line[..17])[k] == CODING[k] {
      assert Lower(field)[k] == "transfer-encoding:"[k];
    }
    assert Lower(line[..17]) == CODING;
  }

  lemma OneMember(value: string)
    requires Lower(value) == "chunked"
    ensures Members("  " + value) == [value]
  {
    var s := "  " + value;
    forall k | 0 <= k < 7 ensures 'A' <= value[k] <= 'z' {
      assert Lower(value)[k] == "chunked"[k];
    }
    IndexOfNone(s, ',');
    assert s[..|s|] == s && s[1..] == " " + value && s[1..][1..] == value;
    assert s[..1] == " " && s[1..][..1] == " " && value[..1] == [value[0]] && value[6..] == [value[6]];
    assert TrimOwsStart(s) == TrimOwsStart(" " + value) == TrimOwsStart(value) == value;
    assert TrimOwsEnd(value) == value;
  }

  lemma FoldedIsUnseen(status: string, field: string, value: string)
    requires Lower(field) == "transfer-encoding:" && Lower(value) == "chunked" && ':' !in status && !SaysChunked(status)
    ensures !AnyChunked([status, field, " " + value]) && First(LengthOf, [status, field, " " + value]) == None
  {
    hide AnyChunked, First, SaysChunked;
    var lines := [status, field, " " + value];
    ShortLinesSayLittle(field, value);
    AnyChunkedMeans(lines);
    NoColon(status);
    CodingLine(field, "");
    assert field + "" == field;
    IndexOfNone(" " + value, ':') by {
      forall k | 0 <= k < 7 ensures value[k] != ':' {
        LowerAt(value, k);
        assert Lower(value)[k] == "chunked"[k];
      }
    }
    NoLengthIsRead(lines) by {
      assert !IsNamed(lines[0], LENGTH) && !IsNamed(lines[1], LENGTH) && !IsNamed(lines[2], LENGTH);
    }
  }

  /** Neither line has both words. */
  lemma ShortLinesSayLittle(field: string, value: string)
    requires Lower(field) == "transfer-encoding:" && Lower(value) == "chunked"
    ensures !SaysChunked(field) && !SaysChunked(" " + value)
  {
    forall i | 0 <= i <= |Lower(field)|
      ensures !("chunked" <= Lower(field)[i..])
    {
      if |Lower(field)[i..]| >= 7 {
        assert Lower(field)[i..][0] == "transfer-encoding:"[i] && Lower(field)[i..][2] == "transfer-encoding:"[i + 2];
      }
    }
    forall i | 0 <= i <= |Lower(" " + value)|
      ensures !("transfer-encoding" <= Lower(" " + value)[i..])
    {
    }
  }
}
