/** The config file loader: a file of `KEY=value` lines read into a string
    map. Keys keep only upper-case letters and underscores, values keep only
    digits, the first occurrence of a key wins, and lines too long for the
    read buffer are skipped. */
module ConfigLoader {
  import opened Wrappers
  import opened Decimal

  /** The size of the line buffer that fgets fills. */
  const MaxConfigFileLineLen: nat := 64

  /** fgets stores at most this many characters, leaving room for the NUL. */
  const FgetsLimit: nat := MaxConfigFileLineLen - 1

  datatype LoadCode = ConfigLoadOk | ConfigTableAllocationFailure | ConfigFileOpenFailure

  predicate IsKeyChar(c: char) {
    ('A' <= c <= 'Z') || c == '_'
  }

  /** Every character of `s` may enter a key. */
  predicate KeyWord(s: string) {
    forall i :: 0 <= i < |s| ==> IsKeyChar(s[i])
  }

  /** `t` holds every entry of `table` unchanged, and any entry it adds has
      a non-empty key of key characters and a non-empty value of digits. */
  predicate Grows(table: map<string, string>, t: map<string, string>) {
    && (forall k :: k in table ==> k in t && t[k] == table[k])
    && (forall k :: k in t && k !in table ==> 0 < |k| && KeyWord(k) && 0 < |t[k]| && AllDigits(t[k]))
  }

  /** The state of the character scan of parse_config_file_line. */
  datatype Scan = Scan(key: string, value: string, parsingKey: bool, parsingValue: bool)

  const ScanStart: Scan := Scan("", "", true, false)

  function ScanStep(st: Scan, c: char): Scan {
    if IsKeyChar(c) && st.parsingKey then st.(key := st.key + [c])
    else if IsDigit(c) && st.parsingValue then st.(value := st.value + [c])
    else if c == '=' then st.(parsingKey := false, parsingValue := true)
    else st
  }

  /** The scan after every character of `line`, in order. */
  function ScanLine(line: string): (r: Scan)
    ensures KeyWord(r.key) && AllDigits(r.value)
    ensures |r.key| + |r.value| <= |line|
    ensures r.parsingValue <==> '=' in line
    ensures r.parsingKey <==> '=' !in line
    ensures '=' !in line ==> r.value == ""
  {
    if |line| == 0 then ScanStart else ScanStep(ScanLine(line[..|line| - 1]), line[|line| - 1])
  }

  /** The characters of `s` that may enter a key. */
  function KeyChars(s: string): (r: string)
    ensures forall i :: 0 <= i < |r| ==> IsKeyChar(r[i])
    ensures |r| <= |s|
  {
    if |s| == 0 then ""
    else if IsKeyChar(s[|s| - 1]) then KeyChars(s[..|s| - 1]) + [s[|s| - 1]]
    else KeyChars(s[..|s| - 1])
  }

  /** The digits of `s`. */
  function DigitChars(s: string): (r: string)
    ensures AllDigits(r)
    ensures |r| <= |s|
  {
    if |s| == 0 then ""
    else if IsDigit(s[|s| - 1]) then DigitChars(s[..|s| - 1]) + [s[|s| - 1]]
    else DigitChars(s[..|s| - 1])
  }

  /** Position of the first `=`, or the length of the line. */
  function EqualsAt(s: string): (r: nat)
    ensures r <= |s| && (r < |s| ==> s[r] == '=')
  {
    if |s| == 0 then 0
    else if s[0] == '=' then 0
    else 1 + EqualsAt(s[1..])
  }

  /** The key of a line: its key characters before the first `=`. */
  function LineKey(line: string): string {
    KeyChars(line[..EqualsAt(line)])
  }

  /** The value of a line: its digits after the first `=`, if there is one. */
  function LineValue(line: string): string {
    var e := EqualsAt(line);
    if e < |line| then DigitChars(line[e + 1..]) else ""
  }

  /** No `=` comes before EqualsAt: it is the first one. */
  lemma {:induction false} EqualsAtFirst(s: string, i: nat)
    requires i < EqualsAt(s)
    ensures s[i] != '='
  {
    if i > 0 {
      EqualsAtFirst(s[1..], i - 1);
    }
  }

  lemma {:induction false} EqualsAtPrefix(line: string, k: nat)
    requires k <= |line|
    ensures EqualsAt(line[..k]) == if EqualsAt(line) < k then EqualsAt(line) else k
  {
    if k > 0 && line[0] != '=' {
      EqualsAtPrefix(line[1..], k - 1);
      assert line[..k][1..] == line[1..][..k - 1];
    }
  }

  /** How the key of a line grows by its last character. */
  lemma LineKeyStep(line: string)
    requires |line| > 0
    ensures var pre, c := line[..|line| - 1], line[|line| - 1];
      LineKey(line) == if EqualsAt(line) == |line| && IsKeyChar(c) then LineKey(pre) + [c] else LineKey(pre)
  {
    var pre := line[..|line| - 1];
    var e := EqualsAt(line);
    EqualsAtPrefix(line, |line| - 1);
    if e < |line| {
      assert line[..e] == pre[..e];
    } else {
      assert line[..e] == line && pre[..|pre|] == pre;
    }
  }

  /** How the value of a line grows by its last character. */
  lemma LineValueStep(line: string)
    requires |line| > 0
    ensures var pre, c := line[..|line| - 1], line[|line| - 1];
      LineValue(line) == if EqualsAt(line) < |pre| && IsDigit(c) then LineValue(pre) + [c] else LineValue(pre)
  {
    EqualsAtPrefix(line, |line| - 1);
    if EqualsAt(line) < |line| - 1 {
      LineValueAfterEquals(line);
    } else if EqualsAt(line) == |line| - 1 {
      LineValueAtEquals(line);
    }
  }

  lemma LineValueAfterEquals(line: string)
    requires |line| > 0 && EqualsAt(line) < |line| - 1
    requires EqualsAt(line[..|line| - 1]) == EqualsAt(line)
    ensures var pre, c := line[..|line| - 1], line[|line| - 1];
      LineValue(line) == if IsDigit(c) then LineValue(pre) + [c] else LineValue(pre)
  {
    var e := EqualsAt(line);
    var pre := line[..|line| - 1];
    var c := line[|line| - 1];
    var preTail := pre[e + 1..];
    LineValueAt(line, e);
    LineValueAt(pre, e);
    DropLast(line, e + 1);
    DigitCharsSnoc(preTail, c);
    if IsDigit(c) {
      assert LineValue(line) == LineValue(pre) + [c];
    } else {
      assert LineValue(line) == LineValue(pre);
    }
  }

  lemma {:induction false} LineValueAt(line: string, e: nat)
    requires e == EqualsAt(line) && e < |line|
    ensures LineValue(line) == DigitChars(line[e + 1..])
  {
  }

  /** Dropping the last element commutes with dropping a prefix. */
  lemma DropLast(s: string, i: nat)
    requires i < |s|
    ensures s[i..] == s[..|s| - 1][i..] + [s[|s| - 1]]
  {
  }

  lemma DigitCharsSnoc(s: string, c: char)
    ensures DigitChars(s + [c]) == if IsDigit(c) then DigitChars(s) + [c] else DigitChars(s)
  {
    assert (s + [c])[..|s + [c]| - 1] == s;
  }

  lemma LineValueAtEquals(line: string)
    requires |line| > 0 && EqualsAt(line) == |line| - 1
    requires EqualsAt(line[..|line| - 1]) == |line| - 1
    ensures LineValue(line) == "" && LineValue(line[..|line| - 1]) == ""
  {
    assert line[|line|..] == "";
  }

  /** The scan keeps exactly the key characters before the first `=` and
      exactly the digits after it. */
  lemma {:induction false} ScanLineMeaning(line: string)
    ensures ScanLine(line) == Scan(LineKey(line), LineValue(line),
                                   EqualsAt(line) == |line|, EqualsAt(line) < |line|)
  {
    if |line| > 0 {
      ScanLineMeaning(line[..|line| - 1]);
      ScanStepMeaning(line);
    }
  }

  /** The meaning of the scan of a line's prefix, stepped by its last
      character, is the meaning of the scan of the line. */
  lemma ScanStepMeaning(line: string)
    requires |line| > 0
    ensures var pre := line[..|line| - 1];
      ScanStep(Scan(LineKey(pre), LineValue(pre), EqualsAt(pre) == |pre|, EqualsAt(pre) < |pre|), line[|line| - 1])
        == Scan(LineKey(line), LineValue(line), EqualsAt(line) == |line|, EqualsAt(line) < |line|)
  {
    EqualsAtPrefix(line, |line| - 1);
    if EqualsAt(line) == |line| {
      EqualsAtFirst(line, |line| - 1);
    }
    LineKeyStep(line);
    LineValueStep(line);
  }

  /** parse_config_file_line: the scanned pair is stored if both key and
      value are non-empty and the key is not in the table yet. */
  function ParseConfigLine(table: map<string, string>, line: string): (r: map<string, string>)
    ensures Grows(table, r)
    ensures forall a, b :: a in r && a !in table && b in r && b !in table ==> a == b
    ensures '=' !in line ==> r == table
  {
    var sc := ScanLine(line);
    if |sc.key| > 0 && |sc.value| > 0 && sc.key !in table then table[sc.key := sc.value] else table
  }

  /** A line adds the pair of its key characters before the first `=` and
      its digits after it, when neither is empty and the key is new; any
      other line leaves the table as it was. */
  lemma ParseConfigLineMeaning(table: map<string, string>, line: string)
    ensures ParseConfigLine(table, line) ==
            if |LineKey(line)| > 0 && |LineValue(line)| > 0 && LineKey(line) !in table
            then table[LineKey(line) := LineValue(line)] else table
  {
    ScanLineMeaning(line);
  }

  /** A key already in the table keeps its value: the first occurrence wins. */
  lemma FirstOccurrenceWins(table: map<string, string>, line: string, k: string)
    requires k in table
    ensures k in ParseConfigLine(table, line) && ParseConfigLine(table, line)[k] == table[k]
  {
    ParseConfigLineMeaning(table, line);
  }

  /** Position of the first newline at or after `pos`, or the end. */
  function NextNewline(content: string, pos: nat): (r: nat)
    requires pos <= |content|
    ensures pos <= r <= |content| && (r < |content| ==> content[r] == '\n')
    ensures forall k :: pos <= k < r ==> content[k] != '\n'
    decreases |content| - pos
  {
    if pos == |content| || content[pos] == '\n' then pos else NextNewline(content, pos + 1)
  }

  /** One fgets call: the characters read, where reading stopped, and
      whether it stopped because the file ended. */
  datatype Chunk = Chunk(text: string, next: nat, eof: bool)

  /** fgets with a buffer of MAX_CONFIG_FILE_LINE_LEN: it reads up to and
      including a newline, but at most FgetsLimit characters, and sets the
      end-of-file flag only when it ran into the end of the file. */
  function Fgets(content: string, pos: nat): (r: Chunk)
    requires pos < |content|
    ensures pos < r.next <= |content| && r.text == content[pos..r.next]
    ensures |r.text| <= FgetsLimit
    ensures r.eof ==> r.next == |content|
  {
    var e := NextNewline(content, pos);
    if e < |content| && e + 1 - pos <= FgetsLimit then Chunk(content[pos..e + 1], e + 1, false)
    else if e == |content| && |content| - pos < FgetsLimit then Chunk(content[pos..], |content|, true)
    else Chunk(content[pos..pos + FgetsLimit], pos + FgetsLimit, false)
  }

  /** One round of the read loop of load_config_to_str_map: a chunk that
      ends neither in a newline nor at the end of the file is the start of
      an overlong line, and the fgetc loop discards the rest of that line up
      to and including its newline; every other chunk is parsed. Gives where
      the next round reads from and the table after this one. */
  function ReadRound(content: string, pos: nat, table: map<string, string>): (r: (nat, map<string, string>))
    requires pos < |content|
    ensures pos < r.0 <= |content|
    ensures Grows(table, r.1)
    ensures '=' !in content[pos..r.0] ==> r.1 == table
  {
    var ch := Fgets(content, pos);
    if ch.text[|ch.text| - 1] != '\n' && !ch.eof then (NextLine(content, ch.next), table)
    else (ch.next, ParseConfigLine(table, ch.text))
  }

  /** The read loop from `pos` to the end of the file. */
  function LoadFrom(content: string, pos: nat, table: map<string, string>): (r: map<string, string>)
    requires pos <= |content|
    ensures Grows(table, r)
    ensures '=' !in content[pos..] ==> r == table
    decreases |content| - pos
  {
    if pos == |content| then table
    else
      var (next, t) := ReadRound(content, pos, table);
      LoadFrom(content, next, t)
  }

  /** The lines of `content` from `pos`, without their newlines; a final
      newline does not start another line. */
  function LinesFrom(content: string, pos: nat): (r: seq<string>)
    requires pos <= |content|
    ensures forall i :: 0 <= i < |r| ==> '\n' !in r[i]
    decreases |content| - pos
  {
    if pos == |content| then []
    else
      var e := NextNewline(content, pos);
      assert forall k :: 0 <= k < e - pos ==> content[pos..e][k] == content[pos + k];
      [content[pos..e]] + LinesFrom(content, NextLine(content, pos))
  }

  /** A line fits the read buffer, together with its newline and the NUL,
      when it has at most FgetsLimit - 1 characters. */
  predicate FitsBuffer(line: string) {
    |line| < FgetsLimit
  }

  /** The loader read line by line: each line that fits is parsed in order,
      and each that does not is skipped. */
  function LoadLines(lines: seq<string>, table: map<string, string>): (r: map<string, string>)
    ensures forall k :: k in table ==> k in r && r[k] == table[k]
  {
    if |lines| == 0 then table
    else LoadLines(lines[1..], if FitsBuffer(lines[0]) then ParseConfigLine(table, lines[0]) else table)
  }

  /** A newline at the end of a chunk is ignored by the scan. */
  lemma NewlineIgnored(table: map<string, string>, line: string)
    ensures ParseConfigLine(table, line + "\n") == ParseConfigLine(table, line)
  {
    var t := line + "\n";
    assert t[..|t| - 1] == line;
    assert ScanLine(t) == ScanLine(line);
  }

  /** Where the line starting at `pos` ends: after its newline, or at the
      end of the file. */
  function NextLine(content: string, pos: nat): (r: nat)
    requires pos <= |content|
    ensures pos <= r <= |content|
  {
    var e := NextNewline(content, pos);
    if e < |content| then e + 1 else |content|
  }

  /** A line that ends in a newline and fits the buffer is read whole by
      one fgets, newline included, and parsed. */
  lemma {:induction false} RoundNewline(content: string, pos: nat, table: map<string, string>)
    requires pos < |content| && NextNewline(content, pos) < |content|
    requires NextNewline(content, pos) - pos < FgetsLimit
    ensures ReadRound(content, pos, table) ==
            (NextNewline(content, pos) + 1, ParseConfigLine(table, content[pos..NextNewline(content, pos)]))
  {
    var e := NextNewline(content, pos);
    var ch := Fgets(content, pos);
    assert ch.text == content[pos..e] + "\n" && ch.next == e + 1;
    NewlineIgnored(table, content[pos..e]);
  }

  /** A last line without a newline that fits the buffer is read whole and
      parsed. */
  lemma {:induction false} RoundLast(content: string, pos: nat, table: map<string, string>)
    requires pos < |content| && NextNewline(content, pos) == |content|
    requires |content| - pos < FgetsLimit
    ensures ReadRound(content, pos, table) == (|content|, ParseConfigLine(table, content[pos..]))
  {
    var ch := Fgets(content, pos);
    assert ch.text == content[pos..] && ch.eof;
  }

  /** A line that does not fit is cut by fgets and the rest of it skipped. */
  lemma {:induction false} RoundLong(content: string, pos: nat, table: map<string, string>)
    requires pos < |content| && NextNewline(content, pos) - pos >= FgetsLimit
    ensures ReadRound(content, pos, table) == (NextLine(content, pos), table)
  {
    var ch := Fgets(content, pos);
    assert ch == Chunk(content[pos..pos + FgetsLimit], pos + FgetsLimit, false);
    assert ch.text[|ch.text| - 1] == content[pos + FgetsLimit - 1];
    NextNewlineFrom(content, pos, ch.next);
  }

  /** One round of the read loop consumes exactly one line, parsing it when
      it fits the buffer and skipping it otherwise. */
  lemma RoundIsOneLine(content: string, pos: nat, table: map<string, string>)
    requires pos < |content|
    ensures var line := content[pos..NextNewline(content, pos)];
      ReadRound(content, pos, table) ==
      (NextLine(content, pos), if FitsBuffer(line) then ParseConfigLine(table, line) else table)
  {
    var e := NextNewline(content, pos);
    if e - pos >= FgetsLimit {
      RoundLong(content, pos, table);
    } else if e < |content| {
      RoundNewline(content, pos, table);
    } else {
      RoundLast(content, pos, table);
      assert content[pos..] == content[pos..e];
    }
  }

  /** Reading with fgets and discarding overlong lines is the same as
      parsing, line by line, exactly the lines that fit the buffer, whether
      or not the file ends in a newline. */
  lemma {:induction false} LoadFromIsLineByLine(content: string, pos: nat, table: map<string, string>)
    requires pos <= |content|
    ensures LoadFrom(content, pos, table) == LoadLines(LinesFrom(content, pos), table)
    decreases |content| - pos
  {
    if pos < |content| {
      var line := content[pos..NextNewline(content, pos)];
      var lines := LinesFrom(content, pos);
      assert lines[0] == line && lines[1..] == LinesFrom(content, NextLine(content, pos));
      RoundIsOneLine(content, pos, table);
      LoadFromIsLineByLine(content, NextLine(content, pos),
                           if FitsBuffer(line) then ParseConfigLine(table, line) else table);
    }
  }

  /** Starting the newline search later, but not past the newline found,
      finds the same newline. */
  lemma {:induction false} NextNewlineFrom(content: string, pos: nat, mid: nat)
    requires pos <= |content| && pos <= mid <= NextNewline(content, pos)
    ensures NextNewline(content, mid) == NextNewline(content, pos)
    decreases mid - pos
  {
    if pos < mid {
      assert content[pos] != '\n';
      NextNewlineFrom(content, pos + 1, mid);
    }
  }

  /** Every pair in a table built by the loader has a key of upper-case
      letters and underscores and a value of digits, both non-empty. */
  predicate WellFormedTable(table: map<string, string>) {
    forall k :: k in table ==> WellFormedKey(k) && |table[k]| > 0 && AllDigits(table[k])
  }

  /** A non-empty run of upper-case letters and underscores. */
  predicate WellFormedKey(k: string) {
    |k| > 0 && forall i :: 0 <= i < |k| ==> IsKeyChar(k[i])
  }

  lemma {:induction false} LoadLinesWellFormed(lines: seq<string>, table: map<string, string>)
    requires WellFormedTable(table)
    ensures WellFormedTable(LoadLines(lines, table))
  {
    if |lines| > 0 {
      ParseConfigLineMeaning(table, lines[0]);
      LoadLinesWellFormed(lines[1..], if FitsBuffer(lines[0]) then ParseConfigLine(table, lines[0]) else table);
    }
  }

  /** load_config_to_str_map. `tableAllocated` is whether the string map
      could be allocated and `file` is the file's content, None when it cannot be
      opened. The table is always handed back: none after an allocation
      failure, the empty table after an open failure. */
  function LoadConfig(tableAllocated: bool, file: Option<string>): (r: (LoadCode, Option<map<string, string>>))
    ensures !tableAllocated ==> r == (ConfigTableAllocationFailure, None)
    ensures tableAllocated && file.None? ==> r == (ConfigFileOpenFailure, Some(map[]))
    ensures tableAllocated && file.Some? ==>
              r.0 == ConfigLoadOk && r.1 == Some(LoadLines(LinesFrom(file.value, 0), map[]))
    ensures r.1.Some? ==> WellFormedTable(r.1.value)
  {
    if !tableAllocated then (ConfigTableAllocationFailure, None)
    else match file
      case None => (ConfigFileOpenFailure, Some(map[]))
      case Some(content) =>
        LoadFromIsLineByLine(content, 0, map[]);
        LoadLinesWellFormed(LinesFrom(content, 0), map[]);
        (ConfigLoadOk, Some(LoadFrom(content, 0, map[])))
  }

  lemma ExampleKey()
    ensures LineKey("Xy=-5") == "X"
  {
    var l := "Xy=-5";
    assert EqualsAt(l[2..]) == 0;
    assert l[..2] == "Xy" && "Xy"[..1] == "X" && "X"[..0] == "";
  }

  lemma ExampleValue()
    ensures LineValue("Xy=-5") == "5"
  {
    var l := "Xy=-5";
    assert EqualsAt(l[2..]) == 0;
    assert l[3..] == "-5" && "-5"[..1] == "-" && "-"[..0] == "";
  }

  /** A lower-case letter in the key and a minus sign in the value are
      dropped. */
  lemma ParseExample()
    ensures ParseConfigLine(map[], "Xy=-5") == map["X" := "5"]
  {
    ParseConfigLineMeaning(map[], "Xy=-5");
    ExampleKey();
    ExampleValue();
  }
}
