/**
 * The line protocol the game client speaks to the launcher over the local
 * IPC socket: one command per line, chosen by its prefix. This module is the
 * expression-style part of the worker loop of `listen_for_ipc`: prefix test,
 * `strip_prefix`, `trim`, `split` and `parse::<i32>`, turning a line into the
 * `Command` the worker then carries out.
 */
module IpcCommands {
  import opened Wrappers
  import opened Bytes
  import opened Text

  const INIT_PREFIX := "init:"
  const POS_PREFIX := "pos:"
  const SHOW_PREFIX := "show_overlay:"
  const HIDE_PREFIX := "hide_overlay:"
  const SHOW_NAME := "show_overlay"
  const HIDE_NAME := "hide_overlay"

  /** What a line asks the worker to do. */
  datatype Command =
    | Init(pid: int)                                  // register this connection for `pid`
    | Pos(x: int, y: int, w: int, h: int, pid: int)   // move and resize the overlay of `pid`
    | Show(pid: int)                                  // open the overlay of `pid`
    | Hide(field: string)                             // close the overlay labelled with `field`
    | Malformed                                       // a known prefix whose arguments do not parse
    | Unknown                                         // no known prefix

  /** Whether the line starts with one of the four command prefixes. */
  predicate Known(line: string) {
    INIT_PREFIX <= line || POS_PREFIX <= line || SHOW_PREFIX <= line || HIDE_PREFIX <= line
  }

  /**
   * The dispatch of the worker loop. The prefixes are tested in the order
   * init, pos, show_overlay, hide_overlay. `init:` and `pos:` parse what
   * follows the prefix, trimmed; `show_overlay:` and `hide_overlay:` split the
   * whole trimmed line on `:` and use its second field.
   */
  function ParseCommand(line: string): (c: Command)
    ensures c.Unknown? <==> !Known(line)
    ensures c.Init? ==> INIT_PREFIX <= line && IsI32(c.pid)
    ensures c.Pos? ==> POS_PREFIX <= line && IsI32(c.x) && IsI32(c.y) && IsI32(c.w) && IsI32(c.h) && IsI32(c.pid)
    ensures c.Show? ==> SHOW_PREFIX <= line && IsI32(c.pid)
    ensures c.Hide? ==> HIDE_PREFIX <= line && ':' !in c.field
  {
    if INIT_PREFIX <= line then
      InitCommand(Trim(line[|INIT_PREFIX|..]))
    else if POS_PREFIX <= line then
      PosCommand(Split(Trim(line[|POS_PREFIX|..]), ','))
    else if SHOW_PREFIX <= line then
      ShowCommand(Split(Trim(line), ':'))
    else if HIDE_PREFIX <= line then
      SplitSeparatorFree(Trim(line), ':');
      HideCommand(Split(Trim(line), ':'))
    else Unknown
  }

  /** `init:`: the trimmed rest of the line must be an i32. */
  function InitCommand(arg: string): (c: Command)
    ensures c.Init? || c.Malformed?
    ensures c.Init? <==> ParseI32(arg).Some?
    ensures c.Init? ==> ParseI32(arg) == Some(c.pid) && IsI32(c.pid)
  {
    match ParseI32(arg)
    case Some(pid) => Init(pid)
    case None => Malformed
  }

  /** `pos:`: exactly five `,`-separated fields, each an i32 as it stands (fields are not trimmed). */
  function PosCommand(parts: seq<string>): (c: Command)
    ensures c.Pos? || c.Malformed?
    ensures c.Pos? <==> |parts| == 5 && forall k :: 0 <= k < 5 ==> ParseI32(parts[k]).Some?
    ensures c.Pos? ==> IsI32(c.x) && IsI32(c.y) && IsI32(c.w) && IsI32(c.h) && IsI32(c.pid)
  {
    if |parts| != 5 then Malformed
    else
      match (ParseI32(parts[0]), ParseI32(parts[1]), ParseI32(parts[2]), ParseI32(parts[3]), ParseI32(parts[4]))
      case (Some(x), Some(y), Some(w), Some(h), Some(pid)) => Pos(x, y, w, h, pid)
      case _ => Malformed
  }

  /** `show_overlay:`: the second `:`-field, when there is one, must be an i32. */
  function ShowCommand(parts: seq<string>): (c: Command)
    ensures c.Show? || c.Malformed?
    ensures c.Show? <==> |parts| >= 2 && ParseI32(parts[1]).Some?
    ensures c.Show? ==> ParseI32(parts[1]) == Some(c.pid) && IsI32(c.pid)
  {
    if |parts| >= 2 then
      match ParseI32(parts[1])
      case Some(pid) => Show(pid)
      case None => Malformed
    else Malformed
  }

  /** `hide_overlay:`: the second `:`-field, when there is one, as it stands. */
  function HideCommand(parts: seq<string>): (c: Command)
    ensures c.Hide? || c.Malformed?
    ensures c.Hide? <==> |parts| >= 2
    ensures c.Hide? ==> c.field == parts[1]
  {
    if |parts| >= 2 then Hide(parts[1]) else Malformed
  }

  /** The commands a client can send and have read back unchanged. */
  predicate WellFormed(c: Command) {
    match c
    case Init(pid) => IsI32(pid)
    case Pos(x, y, w, h, pid) => IsI32(x) && IsI32(y) && IsI32(w) && IsI32(h) && IsI32(pid)
    case Show(pid) => IsI32(pid)
    case Hide(field) => ':' !in field && '\n' !in field && (field == [] || (!IsWhiteSpace(field[0]) && !IsWhiteSpace(field[|field| - 1])))
    case Malformed => false
    case Unknown => false
  }

  /** The line a client writes for a command, without its newline. */
  function FormatCommand(c: Command): (line: string)
    requires WellFormed(c)
    ensures Known(line)
  {
    match c
    case Init(pid) => INIT_PREFIX + FormatInt(pid)
    case Pos(x, y, w, h, pid) => POS_PREFIX + Join([FormatInt(x), FormatInt(y), FormatInt(w), FormatInt(h), FormatInt(pid)], ',')
    case Show(pid) => SHOW_PREFIX + FormatInt(pid)
    case Hide(field) => HIDE_PREFIX + field
  }

  /** The prefixes exclude one another, so the order in which they are tested never matters. */
  lemma PrefixesExclusive(line: string)
    ensures INIT_PREFIX <= line ==> !(POS_PREFIX <= line) && !(SHOW_PREFIX <= line) && !(HIDE_PREFIX <= line)
    ensures POS_PREFIX <= line ==> !(SHOW_PREFIX <= line) && !(HIDE_PREFIX <= line)
    ensures SHOW_PREFIX <= line ==> !(HIDE_PREFIX <= line)
  {
    if line != [] {
      assert INIT_PREFIX <= line ==> line[0] == 'i';
      assert POS_PREFIX <= line ==> line[0] == 'p';
      assert SHOW_PREFIX <= line ==> line[0] == 's';
      assert HIDE_PREFIX <= line ==> line[0] == 'h';
    }
  }

  /** The decimal text of an integer holds no white space and none of the separators `,` and `:`. */
  lemma FormatIntPlain(n: int)
    ensures ',' !in FormatInt(n) && ':' !in FormatInt(n)
    ensures !IsWhiteSpace(FormatInt(n)[0]) && !IsWhiteSpace(FormatInt(n)[|FormatInt(n)| - 1])
  {
    var s := FormatInt(n);
    forall i | 0 <= i < |s| ensures s[i] != ',' && s[i] != ':' && !IsWhiteSpace(s[i]) {
      assert IsDigit(s[i]) || s[i] == '-';
    }
  }

  /**
   * The line protocol round trip: a well-formed command written as a line
   * with its newline is read back as the same command.
   */
  lemma ParseFormat(c: Command)
    requires WellFormed(c)
    ensures ParseCommand(FormatCommand(c) + "\n") == c
  {
    match c
    case Init(pid) =>
      ParseInitLine(pid);
    case Pos(x, y, w, h, pid) =>
      ParsePosLine(x, y, w, h, pid);
    case Show(pid) =>
      ParseShowLine(pid);
    case Hide(field) =>
      ParseHideLine(field);
  }

  lemma ParseInitLine(pid: int)
    requires IsI32(pid)
    ensures ParseCommand(INIT_PREFIX + FormatInt(pid) + "\n") == Init(pid)
  {
    FormatIntPlain(pid);
    ParseFormatI32(pid);
    InitLine(FormatInt(pid), pid);
  }

  /** An `init:` line whose argument has no surrounding white space and is an i32. */
  lemma InitLine(arg: string, pid: int)
    requires arg != [] && !IsWhiteSpace(arg[0]) && !IsWhiteSpace(arg[|arg| - 1])
    requires ParseI32(arg) == Some(pid)
    ensures ParseCommand(INIT_PREFIX + arg + "\n") == Init(pid)
  {
    var line := INIT_PREFIX + arg + "\n";
    assert ParseCommand(line) == InitCommand(Trim(line[|INIT_PREFIX|..])) by {
      DispatchInit(line);
    }
    assert Trim(line[|INIT_PREFIX|..]) == arg by {
      AfterPrefix(INIT_PREFIX, arg);
      TrimNewline(arg);
    }
  }

  lemma ParsePosLine(x: int, y: int, w: int, h: int, pid: int)
    requires IsI32(x) && IsI32(y) && IsI32(w) && IsI32(h) && IsI32(pid)
    ensures ParseCommand(POS_PREFIX + Join([FormatInt(x), FormatInt(y), FormatInt(w), FormatInt(h), FormatInt(pid)], ',') + "\n")
            == Pos(x, y, w, h, pid)
  {
    var fields := [FormatInt(x), FormatInt(y), FormatInt(w), FormatInt(h), FormatInt(pid)];
    var coords := Join(fields, ',');
    assert coords != [] && !IsWhiteSpace(coords[0]) && !IsWhiteSpace(coords[|coords| - 1]) by {
      FormatFieldsPlain(x, y, w, h, pid);
      JoinEnds(fields, ',');
    }
    PosLine(coords);
    assert Split(coords, ',') == fields by {
      FormatFieldsPlain(x, y, w, h, pid);
      SplitJoin(fields, ',');
    }
    assert PosCommand(fields) == Pos(x, y, w, h, pid) by {
      ParseFormatI32(x);
      ParseFormatI32(y);
      ParseFormatI32(w);
      ParseFormatI32(h);
      ParseFormatI32(pid);
      PosFields(fields, x, y, w, h, pid);
    }
  }

  /** A `pos:` line whose arguments have no surrounding white space is read by splitting them on `,`. */
  lemma PosLine(coords: string)
    requires coords != [] && !IsWhiteSpace(coords[0]) && !IsWhiteSpace(coords[|coords| - 1])
    ensures ParseCommand(POS_PREFIX + coords + "\n") == PosCommand(Split(coords, ','))
  {
    var line := POS_PREFIX + coords + "\n";
    assert ParseCommand(line) == PosCommand(Split(Trim(line[|POS_PREFIX|..]), ',')) by {
      DispatchPos(line);
    }
    assert Trim(line[|POS_PREFIX|..]) == coords by {
      AfterPrefix(POS_PREFIX, coords);
      TrimNewline(coords);
    }
  }

  lemma PosFields(fields: seq<string>, x: int, y: int, w: int, h: int, pid: int)
    requires |fields| == 5
    requires ParseI32(fields[0]) == Some(x) && ParseI32(fields[1]) == Some(y) && ParseI32(fields[2]) == Some(w)
    requires ParseI32(fields[3]) == Some(h) && ParseI32(fields[4]) == Some(pid)
    ensures PosCommand(fields) == Pos(x, y, w, h, pid)
  {
  }

  /** What follows the prefix of a line is its argument and the newline. */
  lemma AfterPrefix(prefix: string, arg: string)
    ensures (prefix + arg + "\n")[|prefix|..] == arg + "\n"
  {
    var line := prefix + arg + "\n";
    assert line == prefix + (arg + "\n");
  }

  /** The five decimal fields of a `pos:` line are non-empty, hold no `,` and no white space at either end. */
  lemma FormatFieldsPlain(x: int, y: int, w: int, h: int, pid: int)
    ensures var fields := [FormatInt(x), FormatInt(y), FormatInt(w), FormatInt(h), FormatInt(pid)];
            SeparatorFree(fields, ',') && (forall k :: 0 <= k < 5 ==> fields[k] != [])
            && !IsWhiteSpace(fields[0][0]) && !IsWhiteSpace(fields[4][|fields[4]| - 1])
  {
    FormatIntPlain(x);
    FormatIntPlain(y);
    FormatIntPlain(w);
    FormatIntPlain(h);
    FormatIntPlain(pid);
  }

  lemma ParseShowLine(pid: int)
    requires IsI32(pid)
    ensures ParseCommand(SHOW_PREFIX + FormatInt(pid) + "\n") == Show(pid)
  {
    FormatIntPlain(pid);
    ParseFormatI32(pid);
    ShowLine(FormatInt(pid), pid);
  }

  /** A `show_overlay:` line whose one field has no `:`, no surrounding white space and is an i32. */
  lemma ShowLine(field: string, pid: int)
    requires field != [] && ':' !in field && !IsWhiteSpace(field[0]) && !IsWhiteSpace(field[|field| - 1])
    requires ParseI32(field) == Some(pid)
    ensures ParseCommand(SHOW_PREFIX + field + "\n") == Show(pid)
  {
    var line := SHOW_PREFIX + field + "\n";
    assert ParseCommand(line) == ShowCommand(Split(Trim(line), ':')) by {
      DispatchShow(line);
    }
    assert Split(Trim(line), ':') == [SHOW_NAME, field] by {
      CommandNames();
      FieldLine(SHOW_NAME, field);
    }
  }

  lemma ParseHideLine(field: string)
    requires ':' !in field && (field == [] || (!IsWhiteSpace(field[0]) && !IsWhiteSpace(field[|field| - 1])))
    ensures ParseCommand(HIDE_PREFIX + field + "\n") == Hide(field)
  {
    var line := HIDE_PREFIX + field + "\n";
    assert ParseCommand(line) == HideCommand(Split(Trim(line), ':')) by {
      DispatchHide(line);
    }
    assert Split(Trim(line), ':') == [HIDE_NAME, field] by {
      CommandNames();
      FieldLine(HIDE_NAME, field);
    }
  }

  lemma DispatchInit(line: string)
    requires INIT_PREFIX <= line
    ensures ParseCommand(line) == InitCommand(Trim(line[|INIT_PREFIX|..]))
  {
  }

  lemma DispatchPos(line: string)
    requires POS_PREFIX <= line
    ensures ParseCommand(line) == PosCommand(Split(Trim(line[|POS_PREFIX|..]), ','))
  {
    PrefixesExclusive(line);
  }

  lemma DispatchShow(line: string)
    requires SHOW_PREFIX <= line
    ensures ParseCommand(line) == ShowCommand(Split(Trim(line), ':'))
  {
    PrefixesExclusive(line);
  }

  lemma DispatchHide(line: string)
    requires HIDE_PREFIX <= line
    ensures ParseCommand(line) == HideCommand(Split(Trim(line), ':'))
  {
    PrefixesExclusive(line);
  }

  /** The two commands whose argument is a `:`-field are named by their prefix without its colon. */
  lemma CommandNames()
    ensures SHOW_PREFIX == SHOW_NAME + [':'] && HIDE_PREFIX == HIDE_NAME + [':']
    ensures ':' !in SHOW_NAME && !IsWhiteSpace(SHOW_NAME[0])
    ensures ':' !in HIDE_NAME && !IsWhiteSpace(HIDE_NAME[0])
  {
    assert forall i | 0 <= i < |SHOW_NAME| :: SHOW_NAME[i] != ':';
    assert forall i | 0 <= i < |HIDE_NAME| :: HIDE_NAME[i] != ':';
  }

  /** A line made of `name:` and one field, neither holding `:` nor surrounded by white space, splits into exactly those two. */
  lemma FieldLine(name: string, field: string)
    requires name != [] && ':' !in name && !IsWhiteSpace(name[0])
    requires ':' !in field && (field == [] || (!IsWhiteSpace(field[0]) && !IsWhiteSpace(field[|field| - 1])))
    ensures Split(Trim(name + [':'] + field + "\n"), ':') == [name, field]
  {
    var body := name + [':'] + field;
    assert Trim(body + "\n") == body by {
      assert body[0] == name[0];
      assert body[|body| - 1] == if field == [] then ':' else field[|field| - 1];
      TrimNewline(body);
    }
    assert Split(body, ':') == [name, field] by {
      SplitFirst(name, ':', field);
    }
  }

  /** The glued text starts with the first piece's first character and ends with the last piece's last character. */
  lemma {:induction false} JoinEnds(parts: seq<string>, sep: char)
    requires 1 <= |parts| && forall k :: 0 <= k < |parts| ==> parts[k] != []
    ensures var s := Join(parts, sep);
            s != [] && s[0] == parts[0][0] && s[|s| - 1] == parts[|parts| - 1][|parts[|parts| - 1]| - 1]
    decreases |parts|
  {
    if |parts| > 1 {
      var last := parts[|parts| - 1];
      assert parts[1..][|parts[1..]| - 1] == last;
      JoinEnds(parts[1..], sep);
    }
  }

  /**
   * A line starting with `show_overlay:` or `hide_overlay:` always has a
   * second `:`-field, so the `parts.len() >= 2` guard never rejects one.
   */
  lemma FieldPresent(line: string)
    requires SHOW_PREFIX <= line || HIDE_PREFIX <= line
    ensures |Split(Trim(line), ':')| >= 2
  {
    assert line[0] != ' ' && !IsWhiteSpace(line[0]);
    assert TrimStart(line) == line;
    var t := Trim(line);
    assert !IsWhiteSpace(line[12]) && line[12] == ':';
    assert |t| > 12;
    assert t[12] == ':';
    assert ':' in t;
    var i := FirstIndex(t, ':');
    assert Split(t, ':') == [t[..i]] + Split(t[i + 1..], ':');
  }

  /** `init:` trims what follows the prefix, so white space around the pid is accepted. */
  lemma InitTrimsArgument(arg: string, pid: int)
    requires arg != [] && !IsWhiteSpace(arg[0]) && !IsWhiteSpace(arg[|arg| - 1])
    requires ParseI32(arg) == Some(pid)
    ensures ParseCommand(INIT_PREFIX + (" " + arg + " ") + "\n") == Init(pid)
  {
    var padded := " " + arg + " ";
    var line := INIT_PREFIX + padded + "\n";
    assert ParseCommand(line) == InitCommand(Trim(line[|INIT_PREFIX|..])) by {
      DispatchInit(line);
    }
    assert Trim(line[|INIT_PREFIX|..]) == arg by {
      AfterPrefix(INIT_PREFIX, padded);
      TrimPadded(arg);
    }
  }

  /** Trimming drops one space on each side and the newline. */
  lemma TrimPadded(arg: string)
    requires arg != [] && !IsWhiteSpace(arg[0]) && !IsWhiteSpace(arg[|arg| - 1])
    ensures Trim(" " + arg + " " + "\n") == arg
  {
    var padded := " " + arg + " " + "\n";
    assert TrimStart(padded) == arg + " \n" by {
      assert padded[1..] == arg + " \n";
    }
    assert TrimEnd(arg) == arg;
    assert TrimEnd(arg + " ") == arg by {
      assert (arg + " ")[..|arg|] == arg;
    }
    assert TrimEnd(arg + " \n") == arg by {
      assert (arg + " \n")[..|arg| + 1] == arg + " ";
    }
    assert Trim(padded) == TrimEnd(arg + " \n");
  }

  /** A field that starts with white space is not an i32. */
  lemma LeadingSpaceRejected(s: string)
    requires s != [] && IsWhiteSpace(s[0])
    ensures ParseI32(s) == None
  {
    assert !IsDigit(s[0]);
  }

  /**
   * `pos:` parses its fields as they stand, so one field with leading white
   * space makes the whole line malformed, even though the line itself is trimmed.
   */
  lemma PosDoesNotTrimFields(coords: string, k: nat)
    requires coords != [] && !IsWhiteSpace(coords[0]) && !IsWhiteSpace(coords[|coords| - 1])
    requires k < |Split(coords, ',')| && Split(coords, ',')[k] != [] && IsWhiteSpace(Split(coords, ',')[k][0])
    ensures ParseCommand(POS_PREFIX + coords + "\n") == Malformed
  {
    PosLine(coords);
    LeadingSpaceRejected(Split(coords, ',')[k]);
  }
}
