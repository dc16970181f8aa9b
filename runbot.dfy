/**
 * The control script of the admin Telegram bot (telegrambot/runbot.py): the
 * `.env` file it writes on start, the rewrite of its backup-interval line,
 * the token lookup of `info`, and the dispatch on the command line. The
 * file is its text after newline translation; systemd calls and the
 * Telegram request of `info` are not modelled.
 */
module Runbot {
  import opened Wrappers
  import opened Text

  const IntervalKey := "BACKUP_INTERVAL_HOUR"
  const TokenPrefix := "API_TOKEN="
  const DefaultInterval := "12"

  function TokenLine(apiToken: string): string {
    TokenPrefix + apiToken + "\n"
  }

  function AdminLine(adminUserIds: string): string {
    "ADMIN_USER_IDS=[" + adminUserIds + "]\n"
  }

  /** A line written in place of an interval line. */
  function IntervalLine(backupInterval: string): string {
    IntervalKey + "=" + backupInterval + "\n"
  }

  /** `update_env_file`: exactly three lines. */
  function EnvFileText(apiToken: string, adminUserIds: string, backupInterval: string): string {
    TokenLine(apiToken) + AdminLine(adminUserIds) + IntervalLine(backupInterval)
  }

  function Concat(lines: seq<string>): string
    decreases |lines|
  {
    if lines == [] then "" else lines[0] + Concat(lines[1..])
  }

  lemma ConcatOne(a: string)
    ensures Concat([a]) == a
  {
    assert [a][1..] == [];
  }

  lemma ConcatThree(ws: seq<string>)
    requires |ws| == 3
    ensures Concat(ws) == ws[0] + ws[1] + ws[2]
  {
    var t := ws[1..];
    assert t[0] == ws[1] && t[1..][0] == ws[2] && t[1..][1..] == [];
    assert Concat(t[1..]) == ws[2] + "";
    assert Concat(t) == ws[1] + (ws[2] + "");
  }

  lemma ConcatCons(a: string, rest: seq<string>)
    ensures Concat([a] + rest) == a + Concat(rest)
  {
    assert ([a] + rest)[1..] == rest;
  }

  /** A line as `readlines` returns it from a file that ends in a newline. */
  predicate WellFormedLine(line: string) {
    line != [] && line[|line| - 1] == '\n' && '\n' !in line[..|line| - 1]
  }

  /**
   * `readlines()`: the text cut after every newline; only the last line may
   * lack one.
   */
  function ReadLines(c: string): (lines: seq<string>)
    ensures forall i :: 0 <= i < |lines| ==> lines[i] != []
    decreases |c|
  {
    if c == [] then []
    else if '\n' !in c then [c]
    else
      var i := IndexOf(c, '\n');
      [c[..i + 1]] + ReadLines(c[i + 1..])
  }

  /** Reading the lines loses nothing: joined again they are the text. */
  lemma {:induction false} ReadLinesConcat(c: string)
    ensures Concat(ReadLines(c)) == c
    decreases |c|
  {
    if c != [] && '\n' in c {
      var i := IndexOf(c, '\n');
      var head, tail := c[..i + 1], c[i + 1..];
      ReadLinesConcat(tail);
      var lines := ReadLines(c);
      assert lines == [head] + ReadLines(tail);
      assert lines[0] == head && lines[1..] == ReadLines(tail);
      assert Concat(lines) == head + Concat(ReadLines(tail));
      assert c == head + tail;
    } else if c != [] {
      assert ReadLines(c) == [c];
      ConcatOne(c);
    }
  }

  /** The first line of a text with a newline ends in its only newline. */
  lemma FirstLineWellFormed(c: string)
    requires '\n' in c
    ensures WellFormedLine(c[..IndexOf(c, '\n') + 1])
  {
    var i := IndexOf(c, '\n');
    var line := c[..i + 1];
    assert line[..|line| - 1] == c[..i];
    assert line[|line| - 1] == c[i];
  }

  /** A text that ends in a newline reads as well-formed lines only. */
  lemma {:induction false} ReadLinesWellFormed(c: string)
    requires c != [] ==> c[|c| - 1] == '\n'
    ensures forall k :: 0 <= k < |ReadLines(c)| ==> WellFormedLine(ReadLines(c)[k])
    decreases |c|
  {
    if c != [] {
      assert '\n' in c by { assert c[|c| - 1] == '\n'; }
      var i := IndexOf(c, '\n');
      var line := c[..i + 1];
      FirstLineWellFormed(c);
      var rest := c[i + 1..];
      if rest != [] {
        assert rest[|rest| - 1] == c[|c| - 1];
      }
      ReadLinesWellFormed(rest);
      var tail := ReadLines(rest);
      var lines := ReadLines(c);
      assert lines == [line] + tail;
      forall k | 0 <= k < |lines| ensures WellFormedLine(lines[k]) {
        if k > 0 {
          assert lines[k] == tail[k - 1];
        } else {
          assert lines[k] == line;
        }
      }
    }
  }

  /** Well-formed lines, joined and read again, are the same lines. */
  lemma {:induction false} ConcatReadLines(lines: seq<string>)
    requires forall k :: 0 <= k < |lines| ==> WellFormedLine(lines[k])
    ensures ReadLines(Concat(lines)) == lines
    decreases |lines|
  {
    if lines != [] {
      var first := lines[0];
      var rest := lines[1..];
      assert forall k :: 0 <= k < |rest| ==> rest[k] == lines[k + 1];
      ConcatReadLines(rest);
      var c := Concat(lines);
      assert c == first + Concat(rest);
      var n := |first| - 1;
      assert c[n] == '\n';
      assert c[..n] == first[..n];
      assert '\n' in c;
      var i := IndexOf(c, '\n');
      assert i == n;
      assert c[..i + 1] == first;
      assert c[i + 1..] == Concat(rest);
    }
  }

  /**
   * `line.strip().startswith("BACKUP_INTERVAL_HOUR")`, read off the line: past
   * its leading whitespace the line starts with the key (IntervalLineStrip
   * proves the two the same).
   */
  predicate IsIntervalLine(line: string)
    decreases |line|
  {
    if line != [] && IsSpace(line[0]) then IsIntervalLine(line[1..]) else StartsWith(line, IntervalKey)
  }

  lemma {:induction false} IntervalLineLStrip(line: string)
    ensures IsIntervalLine(line) <==> StartsWith(LStrip(line), IntervalKey)
    decreases |line|
  {
    if line != [] && IsSpace(line[0]) {
      IntervalLineLStrip(line[1..]);
    }
  }

  /** The test the loop makes: the stripped line starts with the interval key. */
  lemma IntervalLineStrip(line: string)
    ensures IsIntervalLine(line) <==> StartsWith(Strip(line), IntervalKey)
  {
    IntervalLineLStrip(line);
    var t := LStrip(line);
    assert !IsSpace(IntervalKey[|IntervalKey| - 1]);
    RStripKeepsPrefix(t, IntervalKey);
  }

  predicate HasIntervalLine(lines: seq<string>) {
    exists i :: 0 <= i < |lines| && IsIntervalLine(lines[i])
  }

  function RewriteLine(line: string, backupInterval: string): string {
    if IsIntervalLine(line) then IntervalLine(backupInterval) else line
  }

  /** The lines the loop writes, in order. */
  function Rewritten(lines: seq<string>, backupInterval: string): (r: seq<string>)
    ensures |r| == |lines|
    ensures forall i :: 0 <= i < |lines| ==> r[i] == RewriteLine(lines[i], backupInterval)
    decreases |lines|
  {
    if lines == [] then []
    else
      var prefix := lines[..|lines| - 1];
      var done := Rewritten(prefix, backupInterval);
      assert forall i :: 0 <= i < |prefix| ==> done[i] == RewriteLine(lines[i], backupInterval);
      done + [RewriteLine(lines[|lines| - 1], backupInterval)]
  }

  /** Whether the loop has seen an interval line. */
  function Found(lines: seq<string>): (b: bool)
    ensures b <==> HasIntervalLine(lines)
    decreases |lines|
  {
    if lines == [] then false
    else
      var prefix := lines[..|lines| - 1];
      assert forall i :: 0 <= i < |prefix| ==> prefix[i] == lines[i];
      Found(prefix) || IsIntervalLine(lines[|lines| - 1])
  }

  /** The lines `set_backup_interval` writes. */
  function WrittenLines(lines: seq<string>, backupInterval: string): (r: seq<string>)
    ensures |r| >= |lines|
    // every interval line is replaced, every other line kept, in order
    ensures forall i :: 0 <= i < |lines| ==> r[i] == RewriteLine(lines[i], backupInterval)
    // without one, exactly one interval line is added at the end
    ensures HasIntervalLine(lines) ==> |r| == |lines|
    ensures !HasIntervalLine(lines) ==> |r| == |lines| + 1 && r[|lines|] == IntervalLine(backupInterval)
  {
    Rewritten(lines, backupInterval) + (if Found(lines) then [] else [IntervalLine(backupInterval)])
  }

  datatype IntervalError = EnvMissing

  /** `set_backup_interval`: a missing file is an error and nothing is written. */
  function SetInterval(env: Option<string>, backupInterval: string): (r: Result<string, IntervalError>)
    ensures r.Err? <==> env.None?
    ensures env.Some? ==> r.value == Concat(WrittenLines(ReadLines(env.value), backupInterval))
  {
    match env
    case None => Err(EnvMissing)
    case Some(c) => Ok(Concat(WrittenLines(ReadLines(c), backupInterval)))
  }

  /** `set_backup_interval` as written: a loop over the lines with a `found` flag. */
  method SetBackupInterval(env: Option<string>, backupInterval: string) returns (r: Result<string, IntervalError>)
    ensures r == SetInterval(env, backupInterval)
  {
    if env.None? {
      return Err(EnvMissing);
    }
    var lines := ReadLines(env.value);
    var written: seq<string> := [];
    var found := false;
    for i := 0 to |lines|
      invariant written == Rewritten(lines[..i], backupInterval)
      invariant found == Found(lines[..i])
    {
      assert lines[..i + 1][..i] == lines[..i];
      if IsIntervalLine(lines[i]) {
        written := written + [IntervalLine(backupInterval)];
        found := true;
      } else {
        written := written + [lines[i]];
      }
    }
    assert lines[..|lines|] == lines;
    if !found {
      written := written + [IntervalLine(backupInterval)];
    }
    assert written == WrittenLines(lines, backupInterval);
    r := Ok(Concat(written));
  }

  datatype InfoResult = NotConfigured | TokenNotFound | Token(token: string)

  /** Line `j` is the first line that starts with "API_TOKEN=". */
  predicate FirstTokenLine(lines: seq<string>, j: int) {
    && 0 <= j < |lines|
    && StartsWith(lines[j], TokenPrefix)
    && forall k :: 0 <= k < j ==> !StartsWith(lines[k], TokenPrefix)
  }

  /** The text after "API_TOKEN=" on the first line that starts with it. */
  function TokenOf(lines: seq<string>): (r: Option<string>)
    ensures r.None? <==> forall i :: 0 <= i < |lines| ==> !StartsWith(lines[i], TokenPrefix)
    decreases |lines|
  {
    if lines == [] then None
    else if StartsWith(lines[0], TokenPrefix) then Some(lines[0][|TokenPrefix|..])
    else
      NoTokenLineShift(lines);
      TokenOf(lines[1..])
  }

  /** No token line among `lines` means none at their head and none in their tail. */
  lemma NoTokenLineShift(lines: seq<string>)
    requires lines != []
    ensures (forall i :: 0 <= i < |lines| ==> !StartsWith(lines[i], TokenPrefix)) <==>
      (!StartsWith(lines[0], TokenPrefix) && forall i :: 0 <= i < |lines[1..]| ==> !StartsWith(lines[1..][i], TokenPrefix))
  {
    var rest := lines[1..];
    if !StartsWith(lines[0], TokenPrefix) && forall i :: 0 <= i < |rest| ==> !StartsWith(rest[i], TokenPrefix) {
      forall i | 0 <= i < |lines| ensures !StartsWith(lines[i], TokenPrefix) {
        if i > 0 {
          assert lines[i] == rest[i - 1];
        }
      }
    }
    if forall i :: 0 <= i < |lines| ==> !StartsWith(lines[i], TokenPrefix) {
      forall i | 0 <= i < |rest| ensures !StartsWith(rest[i], TokenPrefix) {
        assert rest[i] == lines[i + 1];
      }
    }
  }

  /** The token comes from the first token line: the text after its prefix. */
  lemma {:induction false} TokenOfIsFirst(lines: seq<string>, j: int)
    requires FirstTokenLine(lines, j)
    ensures TokenOf(lines) == Some(lines[j][|TokenPrefix|..])
    decreases j
  {
    if j > 0 {
      var rest := lines[1..];
      assert !StartsWith(lines[0], TokenPrefix);
      assert TokenOf(lines) == TokenOf(rest);
      assert rest[j - 1] == lines[j];
      assert forall k :: 0 <= k < j - 1 ==> !StartsWith(rest[k], TokenPrefix) by {
        forall k | 0 <= k < j - 1 ensures !StartsWith(rest[k], TokenPrefix) {
          assert rest[k] == lines[k + 1];
        }
      }
      TokenOfIsFirst(rest, j - 1);
      assert TokenOf(rest) == Some(rest[j - 1][|TokenPrefix|..]);
    }
  }

  /** `info` up to the Telegram request: the token is stripped, and an empty one counts as not found. */
  function Info(env: Option<string>): (r: InfoResult)
    ensures env.None? <==> r == NotConfigured
    ensures r.Token? ==> r.token != ""
    // a token is reported without surrounding whitespace
    ensures r.Token? ==> !IsSpace(r.token[0]) && !IsSpace(r.token[|r.token| - 1])
    ensures env.Some? ==> (r == TokenNotFound <==> TokenOf(ReadLines(env.value)).None? || Strip(TokenOf(ReadLines(env.value)).value) == "")
    // otherwise it is the stripped value of the first `API_TOKEN=` line (TokenOfIsFirst)
    ensures env.Some? && TokenOf(ReadLines(env.value)).Some? && Strip(TokenOf(ReadLines(env.value)).value) != "" ==>
      r == Token(Strip(TokenOf(ReadLines(env.value)).value))
  {
    match env
    case None => NotConfigured
    case Some(c) =>
      match TokenOf(ReadLines(c))
      case None => TokenNotFound
      case Some(t) =>
        StripTrimmed(t);
        if Strip(t) == "" then TokenNotFound else Token(Strip(t))
  }

  /** A token line splits at the '=' of its prefix. */
  lemma TokenLineSplit(line: string)
    requires StartsWith(line, TokenPrefix)
    ensures SplitOnce(line, '=') == Some(("API_TOKEN", line[|TokenPrefix|..]))
  {
    var rest := line[|TokenPrefix|..];
    assert line == "API_TOKEN" + ['='] + rest;
    assert '=' !in "API_TOKEN";
    SplitOnceAt("API_TOKEN", '=', rest);
  }

  /** `info` as written: a loop over the lines that breaks at the first token line. */
  method ReadInfo(env: Option<string>) returns (r: InfoResult)
    ensures r == Info(env)
  {
    if env.None? {
      return NotConfigured;
    }
    var lines := ReadLines(env.value);
    var token: Option<string> := None;
    var i := 0;
    while i < |lines|
      invariant 0 <= i <= |lines|
      invariant TokenOf(lines) == TokenOf(lines[i..])
    {
      var line := lines[i];
      assert lines[i..][0] == line && lines[i..][1..] == lines[i + 1..];
      if StartsWith(line, TokenPrefix) {
        TokenLineSplit(line);
        var parts := SplitOnce(line, '=');
        token := Some(Strip(parts.value.1));
        break;
      }
      i := i + 1;
    }
    if token.None? || token.value == "" {
      return TokenNotFound;
    }
    return Token(token.value);
  }

  /** What the command line asks for; `Usage` prints usage and exits with status 1. */
  datatype Command =
    | Usage
    | InfoCommand
    | Start(apiToken: string, adminUserIds: string, backupInterval: string)
    | Stop
    | SetIntervalCommand(backupInterval: string)

  /** The argument-count rules; `argv[0]` is the script. */
  function Dispatch(argv: seq<string>): (c: Command)
    ensures |argv| < 2 ==> c == Usage
    ensures c.Start? <==> |argv| >= 2 && argv[1] == "start" && 4 <= |argv| <= 5
    ensures c.Start? ==> c.apiToken == argv[2] && c.adminUserIds == argv[3]
    ensures c.Start? ==> c.backupInterval == (if |argv| == 5 then argv[4] else DefaultInterval)
    ensures c.SetIntervalCommand? <==> |argv| == 3 && argv[1] == "set_backup_interval"
    ensures c.SetIntervalCommand? ==> c.backupInterval == argv[2]
    ensures c == InfoCommand <==> |argv| >= 2 && argv[1] == "info"
    ensures c == Stop <==> |argv| >= 2 && argv[1] == "stop"
  {
    if |argv| < 2 then Usage
    else if argv[1] == "info" then InfoCommand
    else if argv[1] == "start" then
      if !(4 <= |argv| <= 5) then Usage
      else Start(argv[2], argv[3], if |argv| == 5 then argv[4] else DefaultInterval)
    else if argv[1] == "stop" then Stop
    else if argv[1] == "set_backup_interval" then
      if |argv| != 3 then Usage else SetIntervalCommand(argv[2])
    else Usage
  }

  // Properties of the line rewrite and of the token lookup.

  /** An interval line written by the loop is itself an interval line. */
  lemma IntervalLineIsInterval(backupInterval: string)
    ensures IsIntervalLine(IntervalLine(backupInterval))
    ensures !StartsWith(IntervalLine(backupInterval), TokenPrefix)
  {
    var line := IntervalLine(backupInterval);
    assert line == IntervalKey + ("=" + backupInterval + "\n");
    assert line[..|IntervalKey|] == IntervalKey;
    assert line[0] == 'B';
  }

  /**
   * A line that begins with a key which does not begin with whitespace, and
   * whose first letter differs from that of the interval key, is not an
   * interval line.
   */
  lemma OtherKeyNotInterval(key: string, rest: string)
    requires key != [] && !IsSpace(key[0])
    requires key[0] != IntervalKey[0]
    ensures !IsIntervalLine(key + rest)
  {
    assert (key + rest)[0] == key[0];
  }

  /** A line starting with "API_TOKEN=" is never rewritten. */
  lemma TokenLineNotInterval(line: string)
    requires StartsWith(line, TokenPrefix)
    ensures !IsIntervalLine(line)
  {
    assert line == TokenPrefix + line[|TokenPrefix|..];
    OtherKeyNotInterval(TokenPrefix, line[|TokenPrefix|..]);
  }

  lemma WellFormedIntervalLine(backupInterval: string)
    requires '\n' !in backupInterval
    ensures WellFormedLine(IntervalLine(backupInterval))
  {
    var line := IntervalLine(backupInterval);
    assert line[..|line| - 1] == IntervalKey + "=" + backupInterval;
  }

  /** The rewrite keeps every token line where it is and adds none. */
  lemma {:induction false} TokenOfAgree(a: seq<string>, b: seq<string>)
    requires |a| <= |b|
    requires forall i :: 0 <= i < |a| ==> (StartsWith(a[i], TokenPrefix) <==> StartsWith(b[i], TokenPrefix))
    requires forall i :: 0 <= i < |a| && StartsWith(a[i], TokenPrefix) ==> a[i] == b[i]
    requires forall i :: |a| <= i < |b| ==> !StartsWith(b[i], TokenPrefix)
    ensures TokenOf(a) == TokenOf(b)
    decreases |a|
  {
    if a == [] {
      assert forall i :: 0 <= i < |b| ==> !StartsWith(b[i], TokenPrefix);
    } else if !StartsWith(a[0], TokenPrefix) {
      assert forall i :: 0 <= i < |a| - 1 ==> a[1..][i] == a[i + 1] && b[1..][i] == b[i + 1];
      assert forall i :: |a| - 1 <= i < |b| - 1 ==> b[1..][i] == b[i + 1];
      TokenOfAgree(a[1..], b[1..]);
    }
  }

  /** Every line the rewrite writes is a well-formed line if the old ones were. */
  lemma WrittenWellFormed(lines: seq<string>, backupInterval: string)
    requires '\n' !in backupInterval
    requires forall k :: 0 <= k < |lines| ==> WellFormedLine(lines[k])
    ensures forall k :: 0 <= k < |WrittenLines(lines, backupInterval)| ==> WellFormedLine(WrittenLines(lines, backupInterval)[k])
  {
    WellFormedIntervalLine(backupInterval);
  }

  /** The rewrite leaves the token that `info` finds alone. */
  lemma WrittenKeepsToken(lines: seq<string>, backupInterval: string)
    ensures TokenOf(WrittenLines(lines, backupInterval)) == TokenOf(lines)
  {
    var ws := WrittenLines(lines, backupInterval);
    IntervalLineIsInterval(backupInterval);
    forall i | 0 <= i < |lines| && StartsWith(lines[i], TokenPrefix) ensures ws[i] == lines[i] {
      TokenLineNotInterval(lines[i]);
    }
    TokenOfAgree(lines, ws);
  }

  /**
   * For a file that ends in a newline, setting the interval keeps the token
   * `info` reports.
   */
  lemma IntervalKeepsToken(c: string, backupInterval: string)
    requires c != [] ==> c[|c| - 1] == '\n'
    requires '\n' !in backupInterval
    ensures Info(Some(SetInterval(Some(c), backupInterval).value)) == Info(Some(c))
  {
    var lines := ReadLines(c);
    ReadLinesWellFormed(c);
    var ws := WrittenLines(lines, backupInterval);
    WrittenWellFormed(lines, backupInterval);
    ConcatReadLines(ws);
    WrittenKeepsToken(lines, backupInterval);
  }

  /** After the rewrite the lines always hold an interval line. */
  lemma WrittenHasInterval(lines: seq<string>, backupInterval: string)
    ensures HasIntervalLine(WrittenLines(lines, backupInterval))
  {
    var ws := WrittenLines(lines, backupInterval);
    IntervalLineIsInterval(backupInterval);
    if HasIntervalLine(lines) {
      var j :| 0 <= j < |lines| && IsIntervalLine(lines[j]);
      assert IsIntervalLine(ws[j]);
    } else {
      assert IsIntervalLine(ws[|lines|]);
    }
  }

  /** Every written line is left as it is by a second rewrite. */
  lemma WrittenLineFixed(lines: seq<string>, backupInterval: string, i: int)
    requires 0 <= i < |WrittenLines(lines, backupInterval)|
    ensures var ws := WrittenLines(lines, backupInterval); RewriteLine(ws[i], backupInterval) == ws[i]
  {
    IntervalLineIsInterval(backupInterval);
  }

  /** Rewriting already rewritten lines changes nothing. */
  lemma WrittenIdempotent(lines: seq<string>, backupInterval: string)
    ensures var ws := WrittenLines(lines, backupInterval); WrittenLines(ws, backupInterval) == ws
  {
    var ws := WrittenLines(lines, backupInterval);
    WrittenHasInterval(lines, backupInterval);
    forall i | 0 <= i < |ws| ensures RewriteLine(ws[i], backupInterval) == ws[i] {
      WrittenLineFixed(lines, backupInterval, i);
    }
    FixedLinesKept(ws, backupInterval);
  }

  /** Lines that hold an interval line and that the rewrite leaves alone are written as they are. */
  lemma FixedLinesKept(ws: seq<string>, backupInterval: string)
    requires HasIntervalLine(ws)
    requires forall i :: 0 <= i < |ws| ==> RewriteLine(ws[i], backupInterval) == ws[i]
    ensures WrittenLines(ws, backupInterval) == ws
  {
    var ws2 := WrittenLines(ws, backupInterval);
    assert |ws2| == |ws|;
    assert forall i :: 0 <= i < |ws| ==> ws2[i] == ws[i];
  }

  /** For a file that ends in a newline, setting the same interval twice is setting it once. */
  lemma SetIntervalIdempotent(c: string, backupInterval: string)
    requires c != [] ==> c[|c| - 1] == '\n'
    requires '\n' !in backupInterval
    ensures var once := SetInterval(Some(c), backupInterval);
      SetInterval(Some(once.value), backupInterval) == once
  {
    var lines := ReadLines(c);
    ReadLinesWellFormed(c);
    var ws := WrittenLines(lines, backupInterval);
    WrittenWellFormed(lines, backupInterval);
    ConcatReadLines(ws);
    WrittenIdempotent(lines, backupInterval);
  }

  /**
   * A last line without a newline that is not an interval line gets the new
   * interval line written straight after it, on the same line.
   */
  lemma GluedAppend(x: string, backupInterval: string)
    requires x != [] && '\n' !in x && !IsIntervalLine(x)
    ensures SetInterval(Some(x), backupInterval) == Ok(x + IntervalLine(backupInterval))
  {
    assert ReadLines(x) == [x];
    var l := IntervalLine(backupInterval);
    assert Rewritten([x], backupInterval) == [x];
    assert !Found([x]);
    var ws := WrittenLines([x], backupInterval);
    assert ws == [x] + [l];
    ConcatCons(x, [l]);
    ConcatOne(l);
  }

  /** The file `start` writes reads back as its three lines. */
  lemma EnvFileLines(apiToken: string, adminUserIds: string, backupInterval: string)
    requires '\n' !in apiToken && '\n' !in adminUserIds && '\n' !in backupInterval
    ensures ReadLines(EnvFileText(apiToken, adminUserIds, backupInterval))
      == [TokenLine(apiToken), AdminLine(adminUserIds), IntervalLine(backupInterval)]
  {
    var l0 := TokenLine(apiToken);
    var l1 := AdminLine(adminUserIds);
    var l2 := IntervalLine(backupInterval);
    assert l0[..|l0| - 1] == TokenPrefix + apiToken;
    assert l1[..|l1| - 1] == "ADMIN_USER_IDS=[" + adminUserIds + "]";
    WellFormedIntervalLine(backupInterval);
    var lines := [l0] + ([l1] + [l2]);
    ConcatCons(l0, [l1] + [l2]);
    ConcatCons(l1, [l2]);
    ConcatOne(l2);
    assert EnvFileText(apiToken, adminUserIds, backupInterval) == l0 + (l1 + l2);
    ConcatReadLines(lines);
  }

  lemma TokenLineParts(apiToken: string)
    ensures StartsWith(TokenLine(apiToken), TokenPrefix)
    ensures TokenLine(apiToken)[|TokenPrefix|..] == apiToken + "\n"
  {
    assert TokenLine(apiToken) == TokenPrefix + (apiToken + "\n");
  }

  /** After `start`, `info` finds the stripped token (or none if it is blank). */
  lemma StartThenInfo(apiToken: string, adminUserIds: string, backupInterval: string)
    requires '\n' !in apiToken && '\n' !in adminUserIds && '\n' !in backupInterval
    ensures Info(Some(EnvFileText(apiToken, adminUserIds, backupInterval)))
      == if Strip(apiToken) == "" then TokenNotFound else Token(Strip(apiToken))
  {
    EnvFileLines(apiToken, adminUserIds, backupInterval);
    TokenLineParts(apiToken);
    StripTrailingSpaces(apiToken, "\n");
  }

  /** The admin line of the file `start` writes is not an interval line. */
  lemma AdminLineNotInterval(adminUserIds: string)
    ensures !IsIntervalLine(AdminLine(adminUserIds))
  {
    var key := "ADMIN_USER_IDS=[";
    assert AdminLine(adminUserIds) == key + (adminUserIds + "]\n");
    OtherKeyNotInterval(key, adminUserIds + "]\n");
  }

  /** Three lines of which only the last is an interval line. */
  lemma WrittenThree(a: string, b: string, c: string, backupInterval: string)
    requires !IsIntervalLine(a) && !IsIntervalLine(b) && IsIntervalLine(c)
    ensures var ws := WrittenLines([a, b, c], backupInterval);
      |ws| == 3 && ws[0] == a && ws[1] == b && ws[2] == IntervalLine(backupInterval)
  {
    var lines := [a, b, c];
    assert HasIntervalLine(lines) by { assert lines[2] == c; }
    var ws := WrittenLines(lines, backupInterval);
    assert ws[0] == RewriteLine(lines[0], backupInterval);
    assert ws[1] == RewriteLine(lines[1], backupInterval);
    assert ws[2] == RewriteLine(lines[2], backupInterval);
  }

  lemma RewriteThird(a: string, b: string, c: string, backupInterval: string)
    requires !IsIntervalLine(a) && !IsIntervalLine(b) && IsIntervalLine(c)
    ensures Concat(WrittenLines([a, b, c], backupInterval)) == a + b + IntervalLine(backupInterval)
  {
    WrittenThree(a, b, c, backupInterval);
    ConcatThree(WrittenLines([a, b, c], backupInterval));
  }

  /** On the file `start` writes, setting the interval rewrites only its third line. */
  lemma StartThenSetInterval(apiToken: string, adminUserIds: string, backupInterval: string, newInterval: string)
    requires '\n' !in apiToken && '\n' !in adminUserIds && '\n' !in backupInterval
    ensures SetInterval(Some(EnvFileText(apiToken, adminUserIds, backupInterval)), newInterval)
      == Ok(EnvFileText(apiToken, adminUserIds, newInterval))
  {
    EnvFileLines(apiToken, adminUserIds, backupInterval);
    var l0 := TokenLine(apiToken);
    TokenLineParts(apiToken);
    TokenLineNotInterval(l0);
    AdminLineNotInterval(adminUserIds);
    IntervalLineIsInterval(backupInterval);
    RewriteThird(l0, AdminLine(adminUserIds), IntervalLine(backupInterval), newInterval);
  }
}
