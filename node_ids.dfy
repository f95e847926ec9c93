/** The POI whitelist reader ParseNodes: one node id per line, taken from the line's first
    space-separated token. */
module NodeIds {
  import opened Wrappers
  import opened Features

  predicate AllSpaces(s: string)
  {
    forall i :: 0 <= i < |s| ==> s[i] == ' '
  }

  predicate NoSpace(s: string)
  {
    forall i :: 0 <= i < |s| ==> s[i] != ' '
  }

  /** The characters of `s` up to (not including) its first space. */
  function TakeToken(s: string): (tok: string)
    ensures |tok| <= |s| && tok == s[..|tok|]
    ensures NoSpace(tok)
    ensures |tok| == |s| || s[|tok|] == ' '
  {
    if s == [] || s[0] == ' ' then [] else [s[0]] + TakeToken(s[1..])
  }

  /** The first token a strings::SimpleTokenizer with delimiter " " yields, or None when the line
      holds only spaces (the tokenizer is then exhausted). */
  function FirstToken(line: string): (tok: Option<string>)
    ensures tok.None? <==> AllSpaces(line)
    ensures tok.Some? ==> tok.value != [] && NoSpace(tok.value)
  {
    if line == [] then None
    else if line[0] == ' ' then FirstToken(line[1..])
    else Some(TakeToken(line))
  }

  predicate IsDigit(c: char) { '0' <= c <= '9' }

  function DigitValue(c: char): nat
    requires IsDigit(c)
  {
    c as int - '0' as int
  }

  function DigitChar(d: nat): (c: char)
    requires d < 10
    ensures IsDigit(c) && DigitValue(c) == d
  {
    ('0' as int + d) as char
  }

  predicate AllDigits(s: string)
  {
    forall i :: 0 <= i < |s| ==> IsDigit(s[i])
  }

  /** The value of a decimal numeral, most significant digit first. */
  function DecimalValue(s: string): nat
    requires AllDigits(s)
  {
    if s == [] then 0 else DecimalValue(s[..|s| - 1]) * 10 + DigitValue(s[|s| - 1])
  }

  /** The canonical decimal numeral of `n`: the partner of ParseUint64. */
  function DecimalString(n: nat): (s: string)
    ensures s != [] && AllDigits(s)
  {
    if n < 10 then [DigitChar(n)] else DecimalString(n / 10) + [DigitChar(n % 10)]
  }

  /** `k` zero digits. */
  function Zeros(k: nat): (s: string)
    ensures |s| == k && AllDigits(s)
  {
    seq(k, _ => '0')
  }

  /** strings::to_uint64 on a token: accepted only when the token is the decimal numeral of the value,
      possibly after leading zeros. */
  function ParseUint64(s: string): (r: Option<uint64>)
    ensures r.Some? ==> exists k :: s == Zeros(k) + DecimalString(r.value)
  {
    if s != [] && AllDigits(s) && DecimalValue(s) < UINT64_LIMIT then
      DigitsAreZerosAndNumeral(s);
      Some(DecimalValue(s))
    else None
  }

  lemma {:induction false} DecimalValueOfString(n: nat)
    ensures DecimalValue(DecimalString(n)) == n
  {
    if n >= 10 {
      DecimalValueOfString(n / 10);
      var s := DecimalString(n);
      assert s[..|s| - 1] == DecimalString(n / 10);
    }
  }

  lemma {:induction false} ZerosValue(s: string)
    requires AllDigits(s) && DecimalValue(s) == 0
    ensures s == Zeros(|s|)
  {
    if s != [] {
      var init, c := s[..|s| - 1], s[|s| - 1];
      assert DecimalValue(init) * 10 + DigitValue(c) == 0;
      assert DecimalValue(init) == 0 && c == '0';
      ZerosValue(init);
      forall i | 0 <= i < |s|
        ensures s[i] == '0'
      {
        if i < |init| {
          assert s[i] == init[i];
        }
      }
    }
  }

  lemma {:induction false} LeadingZerosValue(k: nat, s: string)
    requires AllDigits(s)
    ensures AllDigits(Zeros(k) + s) && DecimalValue(Zeros(k) + s) == DecimalValue(s)
    decreases |s|
  {
    var t := Zeros(k) + s;
    if s == [] {
      assert t == Zeros(k);
      ZerosHaveNoValue(k);
    } else {
      assert t[..|t| - 1] == Zeros(k) + s[..|s| - 1];
      LeadingZerosValue(k, s[..|s| - 1]);
    }
  }

  lemma {:induction false} ZerosHaveNoValue(k: nat)
    ensures DecimalValue(Zeros(k)) == 0
  {
    if k > 0 {
      assert Zeros(k)[..k - 1] == Zeros(k - 1);
      ZerosHaveNoValue(k - 1);
    }
  }

  /** A non-empty digit string is the canonical numeral of its value after some leading zeros. */
  lemma {:induction false} DigitsAreZerosAndNumeral(s: string)
    requires s != [] && AllDigits(s)
    ensures exists k :: s == Zeros(k) + DecimalString(DecimalValue(s))
  {
    var init, c := s[..|s| - 1], s[|s| - 1];
    assert s == init + [c];
    assert DigitChar(DigitValue(c)) == c;
    var v := DecimalValue(init);
    if v == 0 {
      ZerosValue(init);
      assert s == Zeros(|init|) + DecimalString(DecimalValue(s));
    } else {
      DigitsAreZerosAndNumeral(init);
      var k :| init == Zeros(k) + DecimalString(v);
      var n := DecimalValue(s);
      assert n == v * 10 + DigitValue(c);
      assert n / 10 == v && n % 10 == DigitValue(c);
      assert DecimalString(n) == DecimalString(v) + [c];
      assert s == Zeros(k) + DecimalString(n);
    }
  }

  /** A token parses to `n` exactly when `n` fits 64 bits and the token is the decimal numeral of `n`,
      possibly after leading zeros. */
  lemma ParseUint64Numerals(s: string, n: nat)
    ensures ParseUint64(s) == Some(n) <==> n < UINT64_LIMIT && exists k :: s == Zeros(k) + DecimalString(n)
  {
    if n < UINT64_LIMIT && exists k :: s == Zeros(k) + DecimalString(n) {
      var k :| s == Zeros(k) + DecimalString(n);
      LeadingZerosValue(k, DecimalString(n));
      DecimalValueOfString(n);
    }
  }

  /** Every 64-bit id written in decimal parses back to itself. */
  lemma ParseUint64RoundTrip(n: uint64)
    ensures ParseUint64(DecimalString(n)) == Some(n)
  {
    DecimalValueOfString(n);
  }

  /** The id a whitelist line contributes: the uint64 value of its first token, if it has one. */
  function LineNodeId(line: string): Option<uint64>
  {
    match FirstToken(line)
    case None => None
    case Some(tok) => ParseUint64(tok)
  }

  /** Leading spaces are skipped and whatever follows the first token's delimiter is ignored. */
  lemma {:induction false} FirstTokenIgnoresRest(pad: string, tok: string, rest: string)
    requires AllSpaces(pad) && tok != [] && NoSpace(tok)
    requires rest == [] || rest[0] == ' '
    ensures FirstToken(pad + tok + rest) == Some(tok)
  {
    if pad == [] {
      assert pad + tok + rest == tok + rest;
      TakeTokenPrefix(tok, rest);
    } else {
      assert (pad + tok + rest)[1..] == pad[1..] + tok + rest;
      FirstTokenIgnoresRest(pad[1..], tok, rest);
    }
  }

  lemma {:induction false} TakeTokenPrefix(tok: string, rest: string)
    requires NoSpace(tok)
    requires rest == [] || rest[0] == ' '
    ensures TakeToken(tok + rest) == tok
  {
    if tok == [] {
      assert tok + rest == rest;
    } else {
      assert (tok + rest)[1..] == tok[1..] + rest;
      TakeTokenPrefix(tok[1..], rest);
    }
  }

  /** Reading the lines in order: Ok(ids) when every line yields an id, Err(k) with the 0-based index
      of the first line that does not. */
  function ParseLines(lines: seq<string>): (r: Result<set<uint64>, nat>)
    ensures r.Err? ==> r.error < |lines|
  {
    if lines == [] then Ok({})
    else match ParseLines(lines[..|lines| - 1])
      case Err(k) => Err(k)
      case Ok(ids) =>
        match LineNodeId(lines[|lines| - 1])
        case None => Err(|lines| - 1)
        case Some(id) => Ok(ids + {id})
  }

  lemma {:induction false} ParseLinesSucceeds(lines: seq<string>)
    ensures ParseLines(lines).Ok? <==> forall i :: 0 <= i < |lines| ==> LineNodeId(lines[i]).Some?
  {
    if lines != [] {
      var init := lines[..|lines| - 1];
      ParseLinesSucceeds(init);
      assert forall i :: 0 <= i < |init| ==> init[i] == lines[i];
    }
  }

  /** On success the ids are exactly the values of the lines' first tokens. */
  lemma {:induction false} ParseLinesIds(lines: seq<string>, id: uint64)
    requires ParseLines(lines).Ok?
    ensures id in ParseLines(lines).value <==> exists i :: 0 <= i < |lines| && LineNodeId(lines[i]) == Some(id)
  {
    if lines != [] {
      var init := lines[..|lines| - 1];
      ParseLinesIds(init, id);
      assert forall i :: 0 <= i < |init| ==> init[i] == lines[i];
      if id in ParseLines(lines).value && id !in ParseLines(init).value {
        assert LineNodeId(lines[|lines| - 1]) == Some(id);
      }
    }
  }

  /** On failure the reported line is the first bad one: it yields no id and every earlier line does. */
  lemma {:induction false} ParseLinesFirstBad(lines: seq<string>)
    requires ParseLines(lines).Err?
    ensures LineNodeId(lines[ParseLines(lines).error]).None?
    ensures forall j :: 0 <= j < ParseLines(lines).error ==> LineNodeId(lines[j]).Some?
  {
    var init := lines[..|lines| - 1];
    assert forall i :: 0 <= i < |init| ==> init[i] == lines[i];
    if ParseLines(init).Err? {
      ParseLinesFirstBad(init);
    } else {
      ParseLinesSucceeds(init);
    }
  }

  datatype ParseError =
    | CannotOpen                                  // the ifstream could not be opened
    | BadLine(lineNumber: nat, contents: string)  // 1-based number and text of the offending line

  /** What ParseNodes leaves in the id set, or why it fails. `file` is the file's lines as getline
      yields them, None when the file cannot be opened. */
  function ParseNodesResult(nodesFile: string, file: Option<seq<string>>, nodeIds: set<uint64>)
    : Result<set<uint64>, ParseError>
  {
    if nodesFile == [] then Ok(nodeIds)
    else if file.None? then Err(CannotOpen)
    else match ParseLines(file.value)
      case Ok(ids) => Ok(nodeIds + ids)
      case Err(k) => Err(BadLine(k + 1, file.value[k]))
  }

  /** ParseNodes: reads the file line by line, inserting each line's id and counting lines from 1;
      the first line without a parsable first token ends the read with that line's number. */
  method ParseNodes(nodesFile: string, file: Option<seq<string>>, nodeIds: set<uint64>)
    returns (r: Result<set<uint64>, ParseError>)
    ensures r == ParseNodesResult(nodesFile, file, nodeIds)
  {
    if nodesFile == [] {
      return Ok(nodeIds);
    }
    if file.None? {
      return Err(CannotOpen);
    }
    var lines := file.value;
    var ids := nodeIds;
    var lineNumber := 1;
    while lineNumber <= |lines|
      invariant 1 <= lineNumber <= |lines| + 1
      invariant ParseLines(lines[..lineNumber - 1]).Ok?
      invariant ids == nodeIds + ParseLines(lines[..lineNumber - 1]).value
    {
      var line := lines[lineNumber - 1];
      assert lines[..lineNumber][..lineNumber - 1] == lines[..lineNumber - 1];
      var nodeId := LineNodeId(line);
      if nodeId.None? {
        assert ParseLines(lines[..lineNumber]) == Err(lineNumber - 1);
        ParseLinesPrefix(lines, lineNumber);
        return Err(BadLine(lineNumber, line));
      }
      ids := ids + {nodeId.value};
      lineNumber := lineNumber + 1;
    }
    assert lines[..lineNumber - 1] == lines;
    return Ok(ids);
  }

  /** A failure in a prefix is the failure of the whole file. */
  lemma {:induction false} ParseLinesPrefix(lines: seq<string>, n: nat)
    requires n <= |lines| && ParseLines(lines[..n]).Err?
    ensures ParseLines(lines) == ParseLines(lines[..n])
    decreases |lines| - n
  {
    if n < |lines| {
      assert lines[..n + 1][..n] == lines[..n];
      ParseLinesPrefix(lines, n + 1);
    } else {
      assert lines[..n] == lines;
    }
  }

  /** The value of a three-digit numeral. */
  lemma {:induction false} ThreeDigitValue(s: string)
    requires |s| == 3 && AllDigits(s)
    ensures DecimalValue(s) == DigitValue(s[0]) * 100 + DigitValue(s[1]) * 10 + DigitValue(s[2])
  {
    var s2, s1 := s[..2], s[..1];
    assert s2[..1] == s1 && s1[..0] == [] && s2[1] == s[1] && s1[0] == s[0];
    assert DecimalValue(s1) == DecimalValue([]) * 10 + DigitValue(s[0]) == DigitValue(s[0]);
    assert DecimalValue(s2) == DecimalValue(s1) * 10 + DigitValue(s[1]);
    assert DecimalValue(s) == DecimalValue(s2) * 10 + DigitValue(s[2]);
  }

  /** A line that starts with a token: its first k characters, ended by a space or the end of the line. */
  lemma FirstTokenAtStart(line: string, k: nat)
    requires 0 < k <= |line| && NoSpace(line[..k])
    requires k == |line| || line[k] == ' '
    ensures FirstToken(line) == Some(line[..k])
  {
    assert line == "" + line[..k] + line[k..];
    FirstTokenIgnoresRest("", line[..k], line[k..]);
  }

  /** Example whitelist line: the second token of "123 extra-ignored-token" is ignored. */
  lemma WhitelistExampleFirst()
    ensures LineNodeId("123 extra-ignored-token") == Some(123)
  {
    var line := "123 extra-ignored-token";
    var tok := line[..3];
    assert tok == "123" by {
      assert |tok| == 3 && tok[0] == '1' && tok[1] == '2' && tok[2] == '3';
    }
    FirstTokenAtStart(line, 3);
    ThreeDigitValue(tok);
  }

  /** Example whitelist line: "456" yields 456. */
  lemma WhitelistExampleSecond()
    ensures LineNodeId("456") == Some(456)
  {
    var line := "456";
    assert line[..3] == line;
    FirstTokenAtStart(line, 3);
    ThreeDigitValue(line);
  }

  /** Example whitelist line "abc" yields no id, so a file starting with it fails at line 1. */
  lemma WhitelistExampleRejects(rest: seq<string>)
    ensures LineNodeId("abc") == None
    ensures ParseNodesResult("nodes.txt", Some(["abc"] + rest), {}) == Err(BadLine(1, "abc"))
  {
    var line := "abc";
    assert line[..3] == line;
    FirstTokenAtStart(line, 3);
    assert !IsDigit(line[0]);
    var lines := ["abc"] + rest;
    assert lines[..1] == ["abc"];
    assert ParseLines(lines[..1]) == Err(0);
    ParseLinesPrefix(lines, 1);
  }
}
