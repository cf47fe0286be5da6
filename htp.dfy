/**
 * The HTP front end (src/player/htp.rs): read a line, split it into words, run the command
 * it names against the player and write one `= ...` or `? ...` response.  The input is the
 * text the reader delivers, the output the text written; `draws(i)` is the random number
 * the player receives while line `i` runs.
 */
module Htp {
  import opened Wrappers
  import opened Text
  import opened Hex
  import opened Layout
  import opened BoardSpec
  import opened Connectivity
  import opened Players

  // ---- reading lines ----

  /** Length of the line `read_line` takes from the front of `s`: up to and including the first newline. */
  function LineLength(s: string): (n: nat)
    requires s != []
    ensures 0 < n <= |s|
    ensures forall j :: 0 <= j < n - 1 ==> s[j] != '\n'
    ensures n < |s| ==> s[n - 1] == '\n'
  {
    if s[0] == '\n' || |s| == 1 then 1 else 1 + LineLength(s[1..])
  }

  /** The successive results of `read`: non-empty lines, each but the last ending in a newline. */
  function ReadLines(input: string): (lines: seq<string>)
    ensures forall i :: 0 <= i < |lines| ==> lines[i] != []
    ensures forall i :: 0 <= i < |lines| - 1 ==> lines[i][|lines[i]| - 1] == '\n'
    ensures forall i, j :: 0 <= i < |lines| && 0 <= j < |lines[i]| - 1 ==> lines[i][j] != '\n'
    decreases |input|
  {
    if input == [] then []
    else
      var n := LineLength(input);
      [input[..n]] + ReadLines(input[n..])
  }

  function Concat(ss: seq<string>): string {
    if ss == [] then [] else ss[0] + Concat(ss[1..])
  }

  lemma {:induction false} ConcatAppend(a: seq<string>, b: seq<string>)
    ensures Concat(a + b) == Concat(a) + Concat(b)
  {
    if a == [] {
      assert a + b == b;
    } else {
      assert (a + b)[0] == a[0] && (a + b)[1..] == a[1..] + b;
      ConcatAppend(a[1..], b);
    }
  }

  /** Reading splits the input and loses nothing. */
  lemma {:induction false} ReadLinesConcat(input: string)
    ensures Concat(ReadLines(input)) == input
    decreases |input|
  {
    if input != [] {
      var n := LineLength(input);
      ReadLinesConcat(input[n..]);
      assert ([input[..n]] + ReadLines(input[n..]))[1..] == ReadLines(input[n..]);
      assert input[..n] + input[n..] == input;
    }
  }

  // ---- responses ----

  /** `write_ok`. */
  function Ok(msg: string): (t: string)
    ensures Framed(t) && t[0] == '='
  {
    "= " + msg + "\n\n"
  }

  /** `write_err`. */
  function Err(msg: string): (t: string)
    ensures Framed(t) && t[0] == '?'
  {
    "? " + msg + "\n\n"
  }

  /** A response: `=` or `?`, a space, a message, an empty line. */
  predicate Framed(t: string) {
    |t| >= 4 && (t[0] == '=' || t[0] == '?') && t[1] == ' ' && t[|t| - 2..] == "\n\n"
  }

  /** What running one line does to the session. */
  datatype Action =
    | Respond(text: string)  // write `text` and read the next line
    | Quit(text: string)     // write `text` and stop
    | Abort                  // the player panics: nothing more is written

  // ---- one command ----

  /** `player.play_move(m)` and its response; a stone off the board makes the board panic. */
  ghost function Played(s: PlayerState, m: Move): (r: (Action, PlayerState))
    requires PlayerWellFormed(s)
    ensures PlayerWellFormed(r.1) && r.1.board.dims == s.board.dims
    ensures r.0 == Abort <==> !Playable(s, m)
    ensures Playable(s, m) ==> r.1 == PlayMoveResult(s, m).1
    ensures Playable(s, m) ==> (r.0 == Respond(Ok("")) <==> PlayMoveResult(s, m).0)
    ensures Playable(s, m) ==> (r.0 == Respond(Err("invalid move")) <==> !PlayMoveResult(s, m).0)
  {
    if !Playable(s, m) then (Abort, s)
    else
      var (ok, s') := PlayMoveResult(s, m);
      (Respond(if ok then Ok("") else Err("invalid move")), s')
  }

  /** `play <color> <pos>`: `resign` is accepted whatever the colour word says. */
  ghost function PlayCommand(s: PlayerState, color: string, pos: string): (r: (Action, PlayerState))
    requires PlayerWellFormed(s) && pos != []
    ensures PlayerWellFormed(r.1)
    ensures pos == "resign" ==> r == Played(s, Resign)
    ensures pos != "resign" && ParseColor(color).None? ==> r == (Respond(Err("invalid color")), s)
    ensures pos != "resign" && ParseColor(color).Some? && ParsePos(pos).None? ==> r == (Respond(Err("invalid move")), s)
    ensures pos != "resign" && ParseColor(color).Some? && ParsePos(pos).Some? ==>
      r == Played(s, Play(ParseColor(color).value, ParsePos(pos).value))
  {
    if pos == "resign" then Played(s, Resign)
    else match ParseColor(color)
      case None => (Respond(Err("invalid color")), s)
      case Some(c) =>
        match ParsePos(pos)
        case None => (Respond(Err("invalid move")), s)
        case Some(p) => Played(s, Play(c, p))
  }

  /** `boardsize <cols> <rows>`: both numbers must parse as a `u8`. */
  function BoardSizeCommand(s: PlayerState, cols: string, rows: string): (r: (Action, PlayerState))
    ensures ParseU8(cols).Some? && ParseU8(rows).Some? ==>
      r == (Respond(Ok("")), SetBoardSizeResult(s, ParseU8(cols).value, ParseU8(rows).value))
    ensures ParseU8(cols).None? || ParseU8(rows).None? ==> r == (Respond(Err("invalid size")), s)
  {
    match ParseU8(cols)
    case None => (Respond(Err("invalid size")), s)
    case Some(x) =>
      match ParseU8(rows)
      case None => (Respond(Err("invalid size")), s)
      case Some(y) => (Respond(Ok("")), SetBoardSizeResult(s, x, y))
  }

  /** `final_score`: `winner()` is the board's `check_win`. */
  ghost function FinalScore(s: PlayerState): (t: string)
    requires PlayerWellFormed(s)
    ensures Winner(s.board).Some? ==> t == Ok(ColorName(Winner(s.board).value))
    ensures Winner(s.board).None? ==> t == Err("game is not finished!")
  {
    match Winner(s.board)
    case Some(c) => Ok(ColorName(c))
    case None => Err("game is not finished!")
  }

  /** The command shapes `HTP::run` matches the words of a line against. */
  datatype Command =
    | GenMove(color: string)
    | PlayMove(color: string, pos: string)
    | UndoMove
    | ShowBoard
    | NameQuery
    | VersionQuery
    | AnalyzeCommands
    | BoardSize(cols: string, rows: string)
    | QuitSession
    | FinalScoreQuery
    | Unknown

  /** The `match` on the words of a line, in the order of its arms. */
  function Parse(w: seq<string>): (cmd: Command)
    ensures cmd.PlayMove? ==> |w| == 3 && cmd.pos == w[2]
  {
    if |w| == 2 && w[0] == "genmove" then GenMove(w[1])
    else if |w| == 3 && w[0] == "play" then PlayMove(w[1], w[2])
    else if w == ["undo"] then UndoMove
    else if w == ["showboard"] then ShowBoard
    else if w == ["name"] then NameQuery
    else if w == ["version"] then VersionQuery
    else if w == ["hexgui-analyze_commands"] then AnalyzeCommands
    else if |w| == 3 && w[0] == "boardsize" then BoardSize(w[1], w[2])
    else if w == ["quit"] then QuitSession
    else if w == ["final_score"] then FinalScoreQuery
    else Unknown
  }

  /** The words of a command, as a controller sends them. */
  function CommandWords(cmd: Command): seq<string> {
    match cmd
    case GenMove(c) => ["genmove", c]
    case PlayMove(c, p) => ["play", c, p]
    case UndoMove => ["undo"]
    case ShowBoard => ["showboard"]
    case NameQuery => ["name"]
    case VersionQuery => ["version"]
    case AnalyzeCommands => ["hexgui-analyze_commands"]
    case BoardSize(x, y) => ["boardsize", x, y]
    case QuitSession => ["quit"]
    case FinalScoreQuery => ["final_score"]
    case Unknown => []
  }

  /** Every command is recognised from its own words. */
  lemma ParseCommandWords(cmd: Command)
    requires cmd != Unknown
    ensures Parse(CommandWords(cmd)) == cmd
  {
  }

  /** A line is a syntax error exactly when its words are those of no command. */
  lemma ParseUnknown(w: seq<string>)
    ensures Parse(w).Unknown? <==> forall c :: c != Unknown ==> CommandWords(c) != w
  {
    if !Parse(w).Unknown? {
      assert CommandWords(Parse(w)) == w;
    }
  }

  /** Running one recognised command. */
  ghost function Exec(s: PlayerState, cmd: Command, draw: nat): (r: (Action, PlayerState))
    requires PlayerWellFormed(s)
    requires cmd.PlayMove? ==> cmd.pos != []
    ensures PlayerWellFormed(r.1)
  {
    match cmd
    case GenMove(color) =>
      (match ParseColor(color)
       case None => (Respond(Err("invalid color")), s)
       case Some(c) =>
         var (m, s') := GenerateMoveResult(s, c, draw);
         (Respond(Ok(MoveName(m))), s'))
    case PlayMove(color, pos) => PlayCommand(s, color, pos)
    case UndoMove => if UndoOk(s) then (Respond(Ok("")), UndoResult(s)) else (Abort, s)
    case ShowBoard => (Respond(Ok(Render(s.board))), s)
    case NameQuery => (Respond(Ok(Name)), s)
    case VersionQuery => (Respond(Ok(Version)), s)
    case AnalyzeCommands => (Respond(Ok("")), s)
    case BoardSize(cols, rows) => BoardSizeCommand(s, cols, rows)
    case QuitSession => (Quit(Ok("")), s)
    case FinalScoreQuery => (Respond(FinalScore(s)), s)
    case Unknown => (Respond(Err("syntax error")), s)
  }

  /** One pass of the loop in `HTP::run` for the line `line`. */
  ghost function Step(s: PlayerState, line: string, draw: nat): (r: (Action, PlayerState))
    requires PlayerWellFormed(s)
    ensures PlayerWellFormed(r.1)
  {
    var w := Tokens(line);
    var cmd := Parse(w);
    assert cmd.PlayMove? ==> IsWord(w[2]);
    Exec(s, cmd, draw)
  }

  /**
   * What every command guarantees: a framed response; only `quit` stops the loop, with an
   * empty success; an error leaves the board alone, and only a refused stone (still
   * recorded as a move) changes anything else.
   */
  lemma ExecProperties(s: PlayerState, cmd: Command, draw: nat)
    requires PlayerWellFormed(s) && (cmd.PlayMove? ==> cmd.pos != [])
    ensures var r := Exec(s, cmd, draw);
      && (r.0.Respond? ==> Framed(r.0.text))
      && (!r.0.Respond? ==> r.1 == s)
      && (r.0.Quit? <==> cmd == QuitSession)
      && (r.0.Quit? ==> r.0.text == Ok(""))
      && (r.0.Respond? && r.0.text[0] == '?' ==> r.1.board == s.board)
      && (r.0.Respond? && r.0.text[0] == '?' && r.0.text != Err("invalid move") ==> r.1 == s)
  {
  }

  /** `ExecProperties` for a whole line; the loop stops exactly on the line `quit`. */
  lemma StepProperties(s: PlayerState, line: string, draw: nat)
    requires PlayerWellFormed(s)
    ensures var r := Step(s, line, draw);
      && (r.0.Respond? ==> Framed(r.0.text))
      && (!r.0.Respond? ==> r.1 == s)
      && (r.0.Quit? <==> Tokens(line) == ["quit"])
      && (r.0.Quit? ==> r.0.text == Ok(""))
      && (r.0.Respond? && r.0.text[0] == '?' ==> r.1.board == s.board)
      && (r.0.Respond? && r.0.text[0] == '?' && r.0.text != Err("invalid move") ==> r.1 == s)
  {
    var w := Tokens(line);
    assert Parse(w).PlayMove? ==> IsWord(w[2]);
    ExecProperties(s, Parse(w), draw);
    if w == ["quit"] {
      ParseCommandWords(QuitSession);
    }
  }

  /** A line whose words match no command is answered with a syntax error and changes nothing. */
  lemma UnknownCommand(s: PlayerState, line: string, draw: nat)
    requires PlayerWellFormed(s)
    requires forall cmd :: cmd != Unknown ==> CommandWords(cmd) != Tokens(line)
    ensures Step(s, line, draw) == (Respond(Err("syntax error")), s)
  {
    ParseUnknown(Tokens(line));
  }

  /** The words of a command, sent as one line, run that command. */
  lemma StepCommand(s: PlayerState, cmd: Command, draw: nat)
    requires PlayerWellFormed(s) && cmd != Unknown
    requires forall i :: 0 <= i < |CommandWords(cmd)| ==> IsWord(CommandWords(cmd)[i])
    requires cmd.PlayMove? ==> cmd.pos != []
    ensures Step(s, Unwords(CommandWords(cmd)), draw) == Exec(s, cmd, draw)
  {
    TokensUnwords(CommandWords(cmd));
    ParseCommandWords(cmd);
  }

  // ---- a session ----

  datatype End = EndOfInput | QuitCommand | Aborted

  /** The responses written, how the loop ended, and the player's state at the end. */
  datatype Transcript = Transcript(responses: seq<string>, end: End, last: PlayerState)

  /** `HTP::run` from line `i` on. */
  ghost function SessionFrom(s: PlayerState, lines: seq<string>, draws: nat -> nat, i: nat): (t: Transcript)
    requires PlayerWellFormed(s) && i <= |lines|
    ensures PlayerWellFormed(t.last)
    decreases |lines| - i
  {
    if i == |lines| then Transcript([], EndOfInput, s)
    else
      var (a, s') := Step(s, lines[i], draws(i));
      match a
      case Respond(text) =>
        var t := SessionFrom(s', lines, draws, i + 1);
        Transcript([text] + t.responses, t.end, t.last)
      case Quit(text) => Transcript([text], QuitCommand, s)
      case Abort => Transcript([], Aborted, s)
  }

  /** `HTP::run` on a whole input. */
  ghost function Session(s: PlayerState, input: string, draws: nat -> nat): (t: Transcript)
    requires PlayerWellFormed(s)
    ensures PlayerWellFormed(t.last)
    ensures |t.responses| <= |ReadLines(input)|
    ensures t.end == EndOfInput ==> |t.responses| == |ReadLines(input)|
    ensures t.end == QuitCommand ==> t.responses != [] && t.responses[|t.responses| - 1] == Ok("")
    ensures forall k :: 0 <= k < |t.responses| ==> Framed(t.responses[k])
  {
    SessionShape(s, ReadLines(input), draws, 0);
    SessionFrom(s, ReadLines(input), draws, 0)
  }

  // ---- properties of the protocol ----

  /**
   * At most one response per line, exactly one when the input runs out, every response
   * framed, and a session stopped by `quit` ends with its empty success.
   */
  lemma {:induction false} SessionShape(s: PlayerState, lines: seq<string>, draws: nat -> nat, i: nat)
    requires PlayerWellFormed(s) && i <= |lines|
    ensures var t := SessionFrom(s, lines, draws, i);
      && |t.responses| <= |lines| - i
      && (t.end == EndOfInput ==> |t.responses| == |lines| - i)
      && (t.end == QuitCommand ==> t.responses != [] && t.responses[|t.responses| - 1] == Ok(""))
      && (forall k :: 0 <= k < |t.responses| ==> Framed(t.responses[k]))
    decreases |lines| - i
  {
    if i < |lines| {
      var r := Step(s, lines[i], draws(i));
      StepProperties(s, lines[i], draws(i));
      if r.0.Respond? {
        SessionShape(r.1, lines, draws, i + 1);
        SessionFromRespond(s, lines, draws, i);
      } else {
        SessionFromStop(s, lines, draws, i);
      }
    }
  }

  /** After `quit` (or a panic) no further line is read: appending input changes nothing. */
  lemma {:induction false} StoppedIgnoresRest(s: PlayerState, lines: seq<string>, more: seq<string>, draws: nat -> nat, i: nat)
    requires PlayerWellFormed(s) && i <= |lines|
    requires SessionFrom(s, lines, draws, i).end != EndOfInput
    ensures SessionFrom(s, lines + more, draws, i) == SessionFrom(s, lines, draws, i)
    decreases |lines| - i
  {
    assert (lines + more)[i] == lines[i];
    var (a, s') := Step(s, lines[i], draws(i));
    if a.Respond? {
      SessionFromRespond(s, lines, draws, i);
      SessionFromRespond(s, lines + more, draws, i);
      StoppedIgnoresRest(s', lines, more, draws, i + 1);
    } else {
      SessionFromStop(s, lines, draws, i);
      SessionFromStop(s, lines + more, draws, i);
    }
  }

  /** One answered line: its response comes first and the session goes on from the next line. */
  lemma SessionFromRespond(s: PlayerState, lines: seq<string>, draws: nat -> nat, i: nat)
    requires PlayerWellFormed(s) && i < |lines| && Step(s, lines[i], draws(i)).0.Respond?
    ensures var r := Step(s, lines[i], draws(i));
      SessionFrom(s, lines, draws, i) ==
        var t := SessionFrom(r.1, lines, draws, i + 1);
        Transcript([r.0.text] + t.responses, t.end, t.last)
  {
  }

  /** `quit` ends the session with its response; a panic ends it with no response. */
  lemma SessionFromStop(s: PlayerState, lines: seq<string>, draws: nat -> nat, i: nat)
    requires PlayerWellFormed(s) && i < |lines| && !Step(s, lines[i], draws(i)).0.Respond?
    ensures Step(s, lines[i], draws(i)).1 == s
    ensures var a := Step(s, lines[i], draws(i)).0;
      SessionFrom(s, lines, draws, i) ==
        if a.Quit? then Transcript([a.text], QuitCommand, s) else Transcript([], Aborted, s)
  {
    StepProperties(s, lines[i], draws(i));
  }

  /** While the session runs to the end of its input, more input only adds responses after it. */
  lemma {:induction false} SessionExtends(s: PlayerState, lines: seq<string>, more: seq<string>, draws: nat -> nat, i: nat)
    requires PlayerWellFormed(s) && i <= |lines|
    requires SessionFrom(s, lines, draws, i).end == EndOfInput
    ensures var t := SessionFrom(s, lines, draws, i);
      SessionFrom(s, lines + more, draws, i).responses ==
        t.responses + SessionFrom(t.last, lines + more, draws, |lines|).responses
    decreases |lines| - i
  {
    if i < |lines| {
      var r := Step(s, lines[i], draws(i));
      assert r.0.Respond?;
      SessionExtends(r.1, lines, more, draws, i + 1);
      SessionFromRespond(s, lines, draws, i);
      assert (lines + more)[i] == lines[i];
      SessionFromRespond(s, lines + more, draws, i);
      var t1 := SessionFrom(r.1, lines, draws, i + 1);
      PrependAssoc(r.0.text, t1.responses, SessionFrom(t1.last, lines + more, draws, |lines|).responses);
    }
  }

  lemma PrependAssoc(x: string, a: seq<string>, b: seq<string>)
    ensures [x] + (a + b) == ([x] + a) + b
  {
  }

  /** `play <anything> resign` is accepted and records a resignation; the board is unchanged. */
  lemma PlayResignAnyColor(s: PlayerState, color: string, draw: nat)
    requires PlayerWellFormed(s) && IsWord(color)
    ensures Step(s, Unwords(["play", color, "resign"]), draw) == (Respond(Ok("")), s.(moves := s.moves + [Resign]))
  {
    StepCommand(s, PlayMove(color, "resign"), draw);
  }

  lemma PosNameIsWord(p: Pos)
    requires p.x < 26
    ensures IsWord(PosName(p))
  {
    var d := Decimal((p.y + 1) % 256);
    assert forall i :: 0 <= i < |d| ==> IsDigit(d[i]);
    assert PosName(p) == [ColumnLetter(p.x)] + d;
  }

  /** `play <color> <pos>` for a position with a column letter is the move it names. */
  lemma PlayOverProtocol(s: PlayerState, c: Color, p: Pos, draw: nat)
    requires PlayerWellFormed(s) && p.x < 26 && p.y < 255
    ensures Step(s, Unwords(["play", ColorName(c), PosName(p)]), draw) == Played(s, Play(c, p))
  {
    PosNameIsWord(p);
    PosRoundTrip(p);
    assert PosName(p) != "resign" by {
      assert |Decimal((p.y + 1) % 256)| <= 3 by { DecimalShort((p.y + 1) % 256); }
    }
    StepCommand(s, PlayMove(ColorName(c), PosName(p)), draw);
  }

  lemma {:induction false} DecimalShort(n: nat)
    requires n < 1000
    ensures |Decimal(n)| <= 3
    ensures n < 100 ==> |Decimal(n)| <= 2
    ensures n < 10 ==> |Decimal(n)| == 1
  {
    if n >= 10 {
      DecimalShort(n / 10);
    }
  }

  /** `undo` over the protocol is the player's `undo`, or a panic when its cell is off the board. */
  lemma UndoOverProtocol(s: PlayerState, draw: nat)
    requires PlayerWellFormed(s)
    ensures UndoOk(s) ==> Step(s, "undo", draw) == (Respond(Ok("")), UndoResult(s))
    ensures !UndoOk(s) ==> Step(s, "undo", draw).0 == Abort
  {
    StepCommand(s, UndoMove, draw);
  }

  /**
   * Over the protocol, `play <color> <pos>` on an empty cell and then `undo` both succeed
   * and give back the board's stones and the move list.
   */
  lemma PlayThenUndoOverProtocol(s: PlayerState, c: Color, p: Pos, draws: nat -> nat)
    requires PlayerWellFormed(s) && OnBoard(s.board.dims, p) && StoneAt(s.board, p) == None
    requires p.x < 26 && p.y < 255
    ensures var t := SessionFrom(s, [Unwords(["play", ColorName(c), PosName(p)]), "undo"], draws, 0);
      && t.responses == [Ok(""), Ok("")] && t.end == EndOfInput
      && t.last.board.cells == s.board.cells && t.last.moves == s.moves
  {
    var lines := [Unwords(["play", ColorName(c), PosName(p)]), "undo"];
    PlayOverProtocol(s, c, p, draws(0));
    var s1 := PlayMoveResult(s, Play(c, p)).1;
    assert Step(s, lines[0], draws(0)) == (Respond(Ok("")), s1);
    UndoOverProtocol(s1, draws(1));
    PlayUndoRestores(s, c, p);
    var s2 := UndoResult(s1);
    assert Step(s1, lines[1], draws(1)) == (Respond(Ok("")), s2);
    SessionFromRespond(s, lines, draws, 0);
    SessionFromRespond(s1, lines, draws, 1);
  }

  /** `boardsize` with two decimal numbers below 256 installs an empty board of that size. */
  lemma BoardSizeOverProtocol(s: PlayerState, cols: Coord, rows: Coord, draw: nat)
    requires PlayerWellFormed(s)
    ensures Step(s, Unwords(["boardsize", Decimal(cols), Decimal(rows)]), draw)
      == (Respond(Ok("")), SetBoardSizeResult(s, cols, rows))
  {
    var cmd := BoardSize(Decimal(cols), Decimal(rows));
    assert forall i :: 0 <= i < |CommandWords(cmd)| ==> IsWord(CommandWords(cmd)[i]) by {
      DecimalIsWord(cols);
      DecimalIsWord(rows);
    }
    assert Exec(s, cmd, draw) == (Respond(Ok("")), SetBoardSizeResult(s, cols, rows)) by {
      ParseU8Decimal(cols);
      ParseU8Decimal(rows);
    }
    StepCommand(s, cmd, draw);
  }

  lemma DecimalIsWord(n: nat)
    ensures IsWord(Decimal(n))
  {
    var d := Decimal(n);
    assert forall i :: 0 <= i < |d| ==> IsDigit(d[i]);
  }

  lemma OkInjective(a: string, b: string)
    requires Ok(a) == Ok(b)
    ensures a == b
  {
    assert a == Ok(a)[2..|Ok(a)| - 2];
  }

  /** `final_score` names the winner exactly when the board has one. */
  lemma FinalScoreOverProtocol(s: PlayerState, c: Color, draw: nat)
    requires PlayerWellFormed(s)
    ensures Step(s, "final_score", draw).0 == Respond(Ok(ColorName(c))) <==> Winner(s.board) == Some(c)
  {
    StepCommand(s, FinalScoreQuery, draw);
    var t := FinalScore(s);
    if t == Ok(ColorName(c)) && Winner(s.board).Some? {
      OkInjective(ColorName(c), ColorName(Winner(s.board).value));
    }
  }

  /** Once someone has won, `genmove` answers `resign` and records nothing. */
  lemma GenmoveAfterWin(s: PlayerState, c: Color, draw: nat)
    requires PlayerWellFormed(s) && Winner(s.board).Some?
    ensures Step(s, Unwords(["genmove", ColorName(c)]), draw) == (Respond(Ok("resign")), s)
  {
    StepCommand(s, GenMove(ColorName(c)), draw);
  }

  // ---- the loop over a live player ----

  lemma ConcatCons(x: string, rest: seq<string>)
    ensures Concat([x] + rest) == x + Concat(rest)
  {
    assert ([x] + rest)[0] == x && ([x] + rest)[1..] == rest;
  }

  /** `genmove <color>` against the player. */
  method ExecuteGenMove(player: RandomPlayer, color: string, draw: nat) returns (a: Action)
    requires player.Valid()
    modifies player.Repr
    ensures player.Valid() && fresh(player.Repr - old(player.Repr))
    ensures (a, player.Model()) == Exec(old(player.Model()), GenMove(color), draw)
  {
    match ParseColor(color) {
      case None => a := Respond(Err("invalid color"));
      case Some(c) =>
        var m := player.GenerateMove(c, draw);
        a := Respond(Ok(MoveName(m)));
    }
  }

  /** `play <color> <pos>` against the player. */
  method ExecutePlay(player: RandomPlayer, color: string, pos: string) returns (a: Action)
    requires player.Valid() && pos != []
    modifies player.Repr
    ensures player.Valid() && fresh(player.Repr - old(player.Repr))
    ensures (a, player.Model()) == PlayCommand(old(player.Model()), color, pos)
  {
    var m := Resign;
    if pos != "resign" {
      match ParseColor(color) {
        case None => return Respond(Err("invalid color"));
        case Some(c) =>
          match ParsePos(pos) {
            case None => return Respond(Err("invalid move"));
            case Some(p) => m := Play(c, p);
          }
      }
    }
    if m.Play? && !player.board.IsOnBoard(m.pos) {
      return Abort;
    }
    var ok := player.PlayMove(m);
    a := Respond(if ok then Ok("") else Err("invalid move"));
  }

  /** `undo` against the player; an off-board last stone makes the board panic. */
  method ExecuteUndo(player: RandomPlayer) returns (a: Action)
    requires player.Valid()
    modifies player.Repr
    ensures player.Valid() && fresh(player.Repr - old(player.Repr))
    ensures (a, player.Model()) == Exec(old(player.Model()), UndoMove, 0)
  {
    var n := |player.moves|;
    if n > 0 && player.moves[n - 1].Play? && !player.board.IsOnBoard(player.moves[n - 1].pos) {
      return Abort;
    }
    player.Undo();
    a := Respond(Ok(""));
  }

  /** `boardsize <cols> <rows>` against the player. */
  method ExecuteBoardSize(player: RandomPlayer, cols: string, rows: string) returns (a: Action)
    requires player.Valid()
    modifies player.Repr
    ensures player.Valid() && fresh(player.Repr - old(player.Repr))
    ensures (a, player.Model()) == BoardSizeCommand(old(player.Model()), cols, rows)
  {
    match ParseU8(cols) {
      case None => a := Respond(Err("invalid size"));
      case Some(x) =>
        match ParseU8(rows) {
          case None => a := Respond(Err("invalid size"));
          case Some(y) =>
            player.SetBoardSize(x, y);
            a := Respond(Ok(""));
        }
    }
  }

  /** `final_score` against the player. */
  method ExecuteFinalScore(player: RandomPlayer) returns (a: Action)
    requires player.Valid()
    ensures a == Respond(FinalScore(player.Model()))
  {
    var win := player.board.CheckWin();
    a := Respond(if win.Some? then Ok(ColorName(win.value)) else Err("game is not finished!"));
  }

  /** A recognised command against the player. */
  method ExecuteCommand(player: RandomPlayer, cmd: Command, draw: nat) returns (a: Action)
    requires player.Valid() && (cmd.PlayMove? ==> cmd.pos != [])
    modifies player.Repr
    ensures player.Valid() && fresh(player.Repr - old(player.Repr))
    ensures (a, player.Model()) == Exec(old(player.Model()), cmd, draw)
  {
    match cmd
    case GenMove(color) => a := ExecuteGenMove(player, color, draw);
    case PlayMove(color, pos) => a := ExecutePlay(player, color, pos);
    case UndoMove => a := ExecuteUndo(player);
    case ShowBoard => a := Respond(Ok(Render(player.board.Model())));
    case NameQuery => a := Respond(Ok(Name));
    case VersionQuery => a := Respond(Ok(Version));
    case AnalyzeCommands => a := Respond(Ok(""));
    case BoardSize(cols, rows) => a := ExecuteBoardSize(player, cols, rows);
    case QuitSession => a := Quit(Ok(""));
    case FinalScoreQuery => a := ExecuteFinalScore(player);
    case Unknown => a := Respond(Err("syntax error"));
  }

  /** One pass of the loop in `HTP::run`: run the command on `line` against the player. */
  method Execute(player: RandomPlayer, line: string, draw: nat) returns (a: Action)
    requires player.Valid()
    modifies player.Repr
    ensures player.Valid() && fresh(player.Repr - old(player.Repr))
    ensures (a, player.Model()) == Step(old(player.Model()), line, draw)
  {
    var w := Tokens(line);
    var cmd := Parse(w);
    assert cmd.PlayMove? ==> IsWord(w[2]);
    a := ExecuteCommand(player, cmd, draw);
  }

  /** The output so far, followed by what the rest `t` of the session writes, is the whole session `total`. */
  ghost predicate Continues(total: Transcript, output: string, t: Transcript) {
    Concat(total.responses) == output + Concat(t.responses) && t.end == total.end && t.last == total.last
  }

  lemma ContinuesRespond(total: Transcript, output: string, s: PlayerState, lines: seq<string>, draws: nat -> nat, i: nat, text: string, s': PlayerState)
    requires PlayerWellFormed(s) && i < |lines|
    requires Continues(total, output, SessionFrom(s, lines, draws, i))
    requires Step(s, lines[i], draws(i)) == (Respond(text), s')
    ensures Continues(total, output + text, SessionFrom(s', lines, draws, i + 1))
  {
    SessionFromRespond(s, lines, draws, i);
    ConcatCons(text, SessionFrom(s', lines, draws, i + 1).responses);
  }

  /** A line that stops the loop: what the session wrote is the output so far plus a `quit` response. */
  lemma ContinuesStop(total: Transcript, output: string, s: PlayerState, lines: seq<string>, draws: nat -> nat, i: nat)
    requires PlayerWellFormed(s) && i < |lines|
    requires Continues(total, output, SessionFrom(s, lines, draws, i))
    requires !Step(s, lines[i], draws(i)).0.Respond?
    ensures var a := Step(s, lines[i], draws(i)).0;
      && total.last == s
      && (a.Quit? ==> output + a.text == Concat(total.responses) && total.end == QuitCommand)
      && (a.Abort? ==> output == Concat(total.responses) && total.end == Aborted)
  {
    SessionFromStop(s, lines, draws, i);
    var a := Step(s, lines[i], draws(i)).0;
    assert Concat([]) == [];
    if a.Quit? {
      ConcatCons(a.text, []);
      assert [a.text] + [] == [a.text];
    }
  }

  /**
   * One pass of the loop in `HTP::run` with its `continue`/`break`: answer line `i`, or stop
   * the session on `quit` or a panic.
   */
  method Serve(player: RandomPlayer, lines: seq<string>, draws: nat -> nat, i: nat, ghost total: Transcript, output: string)
    returns (output': string, stop: bool)
    requires player.Valid() && i < |lines|
    requires Continues(total, output, SessionFrom(player.Model(), lines, draws, i))
    modifies player.Repr
    ensures player.Valid() && fresh(player.Repr - old(player.Repr))
    ensures !stop ==> Continues(total, output', SessionFrom(player.Model(), lines, draws, i + 1))
    ensures stop ==> output' == Concat(total.responses) && total.end != EndOfInput && player.Model() == total.last
  {
    ghost var before := player.Model();
    var a := Execute(player, lines[i], draws(i));
    if a.Respond? {
      ContinuesRespond(total, output, before, lines, draws, i, a.text, player.Model());
      output', stop := output + a.text, false;
    } else {
      ContinuesStop(total, output, before, lines, draws, i);
      output' := if a.Quit? then output + a.text else output;
      stop := true;
    }
  }

  /**
   * `HTP::run`: read lines until the input ends, `quit` arrives or the player panics,
   * writing each response to `output`.
   */
  method Run(player: RandomPlayer, input: string, draws: nat -> nat) returns (output: string, ghost end: End)
    requires player.Valid()
    modifies player.Repr
    ensures player.Valid() && fresh(player.Repr - old(player.Repr))
    ensures var t := Session(old(player.Model()), input, draws);
      output == Concat(t.responses) && end == t.end && player.Model() == t.last
  {
    var lines := ReadLines(input);
    ghost var total := SessionFrom(player.Model(), lines, draws, 0);
    output := [];
    var i := 0;
    while i < |lines|
      invariant 0 <= i <= |lines|
      invariant player.Valid() && fresh(player.Repr - old(player.Repr))
      invariant Continues(total, output, SessionFrom(player.Model(), lines, draws, i))
      decreases |lines| - i
    {
      var stop;
      output, stop := Serve(player, lines, draws, i, total, output);
      if stop {
        end := total.end;
        return;
      }
      i := i + 1;
    }
    end := EndOfInput;
  }
}
