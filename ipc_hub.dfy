/**
 * The launcher's side of the IPC socket: the process-wide registry
 * `GAME_STREAMS` from game pid to the connection that announced it, the
 * overlay windows the commands open, move and close, and
 * `send_message_to_game`, which writes one line to a registered connection.
 * Connections are named by a number; what the launcher has written to each
 * one is kept as text.
 */
module IpcHub {
  import opened Wrappers
  import opened Bytes
  import opened Text
  import opened IpcCommands

  /** A connection accepted by the listener. */
  type ConnId = nat

  const LABEL_PREFIX := "omp_overlay_window:"
  const URL_PREFIX := "index.html?attached_id="
  /** Both coordinates of a freshly opened overlay, which keeps it off screen until the first `pos:`. */
  const OFF_SCREEN: int := -1000
  const NO_STREAM_FOUND := "no_stream_found"

  /** A window size in physical pixels (two u32). */
  datatype Size = Size(width: nat, height: nat)

  /** An overlay window: its position, its size once one was set, and the page it shows. */
  datatype Window = Window(x: int, y: int, size: Option<Size>, url: string)

  /** What the commands act on: the registry and the windows, keyed by label. */
  datatype Shared = Shared(streams: map<int, ConnId>, windows: map<string, Window>)

  /** The result of one `read_line`: the text read (empty at end of stream), or an error. */
  datatype Read = Received(text: string) | ReadError

  /** The label of the overlay of a game, from the text that names it. */
  function OverlayLabel(id: string): (name: string)
    ensures LABEL_PREFIX <= name && name[|LABEL_PREFIX|..] == id
  {
    LABEL_PREFIX + id
  }

  /** Labels built from different texts differ. */
  lemma OverlayLabelInjective(a: string, b: string)
    requires OverlayLabel(a) == OverlayLabel(b)
    ensures a == b
  {
    assert a == OverlayLabel(a)[|LABEL_PREFIX|..];
  }

  /** An i32 computation that wraps around, as a release build does. */
  function WrapI32(n: int): (v: int)
    ensures IsI32(v) && (n - v) % U32_LIMIT == 0
    ensures IsI32(n) ==> v == n
  {
    AsI32(n % U32_LIMIT)
  }

  /** `as u32` on an i32: the same bits read as unsigned. */
  function AsU32(n: int): (u: nat)
    ensures u < U32_LIMIT && (n - u) % U32_LIMIT == 0
    ensures 0 <= n < U32_LIMIT ==> u == n
  {
    n % U32_LIMIT
  }

  /** A window after `pos:` with width `w` and height `h`: moved to (-w-1000, -h-1000), then resized to (w, h). */
  function Placed(win: Window, w: int, h: int): (r: Window)
    ensures r.url == win.url && r.size.Some?
    ensures IsI32(r.x) && IsI32(r.y)
  {
    var moved := win.(x := WrapI32(WrapI32(-1 * w) - 1000), y := WrapI32(WrapI32(-1 * h) - 1000));
    moved.(size := Some(Size(AsU32(w), AsU32(h))))
  }

  /** `create_overlay_window`: a new off-screen window showing the overlay page of `attachedId`, unless the label is taken. */
  function Opened(windows: map<string, Window>, name: string, attachedId: int): (r: map<string, Window>)
    ensures name in r && r.Keys == windows.Keys + {name}
    ensures name in windows ==> r == windows
    ensures name !in windows ==> r[name] == Window(OFF_SCREEN, OFF_SCREEN, None, URL_PREFIX + FormatInt(attachedId))
    ensures forall l :: l in windows && l != name ==> r[l] == windows[l]
  {
    if name in windows then windows
    else windows[name := Window(OFF_SCREEN, OFF_SCREEN, None, URL_PREFIX + FormatInt(attachedId))]
  }

  /** What one command does, carried out on behalf of connection `conn`. */
  function Apply(st: Shared, conn: ConnId, c: Command): (r: Shared)
    ensures r.streams == if c.Init? then st.streams[c.pid := conn] else st.streams
    ensures c.Malformed? || c.Unknown? ==> r == st
    ensures c.Init? || c.Pos? ==> r.windows.Keys == st.windows.Keys
    ensures c.Show? ==> st.windows.Keys <= r.windows.Keys
    ensures c.Hide? ==> r.windows.Keys <= st.windows.Keys
  {
    match c
    case Init(pid) => st.(streams := st.streams[pid := conn])
    case Pos(_, _, w, h, pid) =>
      var name := OverlayLabel(FormatInt(pid));
      if name in st.windows then st.(windows := st.windows[name := Placed(st.windows[name], w, h)]) else st
    case Show(pid) => st.(windows := Opened(st.windows, OverlayLabel(FormatInt(pid)), pid))
    case Hide(field) => st.(windows := st.windows - {OverlayLabel(field)})
    case Malformed => st
    case Unknown => st
  }

  /**
   * What one line does. A line with none of the four prefixes changes
   * nothing, and only `init:` lines touch the registry.
   */
  function Step(st: Shared, conn: ConnId, line: string): (r: Shared)
    ensures !Known(line) ==> r == st
    ensures !(INIT_PREFIX <= line) ==> r.streams == st.streams
  {
    Apply(st, conn, ParseCommand(line))
  }

  /** Whether the worker stops at this read: an error, or zero bytes at the end of the stream. */
  predicate Stops(read: Read) {
    read.ReadError? || read.text == []
  }

  /**
   * The worker loop of one connection over a sequence of reads: every line
   * until the first stop. Nothing it does removes a registry entry.
   */
  function Work(st: Shared, conn: ConnId, input: seq<Read>): (r: Shared)
    ensures st.streams.Keys <= r.streams.Keys
    decreases |input|
  {
    if input == [] || Stops(input[0]) then st
    else Work(Step(st, conn, input[0].text), conn, input[1..])
  }

  lemma WorkHalts(st: Shared, conn: ConnId, input: seq<Read>)
    requires input == [] || Stops(input[0])
    ensures Work(st, conn, input) == st
  {
  }

  lemma WorkOn(st: Shared, conn: ConnId, input: seq<Read>, line: string)
    requires input != [] && input[0] == Received(line) && line != []
    ensures Work(st, conn, input) == Work(Step(st, conn, line), conn, input[1..])
  {
  }

  /** What has been written so far to a connection. */
  function Written(output: map<ConnId, string>, conn: ConnId): string {
    if conn in output then output[conn] else ""
  }

  /**
   * `send_message_to_game` as a value: the result, and the text written to
   * every connection afterwards.
   */
  function Send(streams: map<int, ConnId>, output: map<ConnId, string>, id: int, message: string)
    : (r: (Result<(), string>, map<ConnId, string>))
    ensures id !in streams ==> r == (Failure(NO_STREAM_FOUND), output)
    ensures id in streams ==> r.0 == Success(()) && Written(r.1, streams[id]) == Written(output, streams[id]) + message + "\n"
    ensures forall c :: (id !in streams || c != streams[id]) ==> Written(r.1, c) == Written(output, c)
  {
    if id in streams then
      var conn := streams[id];
      (Success(()), output[conn := Written(output, conn) + message + "\n"])
    else
      (Failure(NO_STREAM_FOUND), output)
  }

  class Hub {
    /** `GAME_STREAMS`: the connection each game pid announced itself on. */
    var streams: map<int, ConnId>
    /** The open overlay windows, by label. */
    var windows: map<string, Window>
    /** Everything written so far to each connection. */
    var output: map<ConnId, string>

    function State(): Shared
      reads this
    {
      Shared(streams, windows)
    }

    constructor ()
      ensures streams == map[] && windows == map[] && output == map[]
    {
      streams := map[];
      windows := map[];
      output := map[];
    }

    /** `create_overlay_window`: a window that already exists is left as it is (the builder refuses the label). */
    method CreateOverlayWindow(name: string, attachedId: int)
      modifies this
      ensures windows == Opened(old(windows), name, attachedId)
      ensures streams == old(streams) && output == old(output)
    {
      if name !in windows {
        var url := URL_PREFIX + FormatInt(attachedId);
        windows := windows[name := Window(OFF_SCREEN, OFF_SCREEN, None, url)];
      }
    }

    /** The body of the worker loop for one line read from connection `conn`. */
    method ProcessLine(conn: ConnId, line: string)
      modifies this
      ensures State() == Step(old(State()), conn, line)
      ensures output == old(output)
    {
      var command := ParseCommand(line);
      Execute(conn, command);
    }

    /** The branch of the worker loop that carries out one command. */
    method Execute(conn: ConnId, command: Command)
      modifies this
      ensures State() == Apply(old(State()), conn, command)
      ensures output == old(output)
    {
      match command
      case Init(pid) =>
        streams := streams[pid := conn];
      case Pos(_, _, w, h, pid) =>
        var name := OverlayLabel(FormatInt(pid));
        if name in windows {
          var win := windows[name];
          win := win.(x := WrapI32(WrapI32(-1 * w) - 1000), y := WrapI32(WrapI32(-1 * h) - 1000));
          win := win.(size := Some(Size(AsU32(w), AsU32(h))));
          windows := windows[name := win];
        }
      case Show(pid) =>
        CreateOverlayWindow(OverlayLabel(FormatInt(pid)), pid);
      case Hide(field) =>
        var name := OverlayLabel(field);
        if name in windows {
          windows := windows - {name};
        }
      case Malformed =>
      case Unknown =>
    }

    /**
     * The worker thread of connection `conn`: reads line after line into a
     * buffer cleared after each one, until a read fails or returns nothing.
     */
    method RunWorker(conn: ConnId, input: seq<Read>)
      modifies this
      ensures State() == Work(old(State()), conn, input)
      ensures output == old(output)
    {
      var line := "";
      var i := 0;
      while i < |input|
        invariant i <= |input|
        invariant line == ""
        invariant Work(old(State()), conn, input) == Work(State(), conn, input[i..])
        invariant output == old(output)
        decreases |input| - i
      {
        if input[i].ReadError? {
          WorkHalts(State(), conn, input[i..]);
          break;
        }
        line := line + input[i].text;
        if |line| == 0 {
          WorkHalts(State(), conn, input[i..]);
          break;
        }
        assert line == input[i].text;
        ghost var before := State();
        ghost var rest := input[i..];
        assert rest[0] == Received(line) && rest[1..] == input[i + 1..];
        WorkOn(before, conn, rest, line);
        ProcessLine(conn, line);
        line := "";
        i := i + 1;
      }
      if i == |input| {
        WorkHalts(State(), conn, input[i..]);
      }
    }

    /** `send_message_to_game`: one line to the connection registered for `id`. */
    method SendMessageToGame(id: int, message: string) returns (r: Result<(), string>)
      modifies this
      ensures (r, output) == Send(old(streams), old(output), id, message)
      ensures streams == old(streams) && windows == old(windows)
    {
      if id in streams {
        var conn := streams[id];
        var sent := if conn in output then output[conn] else "";
        output := output[conn := sent + message + "\n"];
        r := Success(());
      } else {
        r := Failure(NO_STREAM_FOUND);
      }
    }
  }

  /**
   * `init:` registers this connection for the pid when the trimmed rest of
   * the line is an i32, replacing any earlier connection for it, and changes
   * nothing otherwise.
   */
  lemma InitLineEffect(st: Shared, conn: ConnId, line: string)
    requires INIT_PREFIX <= line
    ensures var r := Step(st, conn, line);
            match ParseI32(Trim(line[|INIT_PREFIX|..]))
            case Some(pid) => r.streams == st.streams[pid := conn] && r.windows == st.windows
            case None => r == st
  {
    DispatchInit(line);
  }

  /**
   * `pos:` moves and resizes the overlay of its pid, if that is open, and
   * nothing else; without it nothing changes. x and y play no part.
   */
  lemma PosEffect(st: Shared, conn: ConnId, line: string)
    requires ParseCommand(line).Pos?
    ensures var c := ParseCommand(line);
            var name := OverlayLabel(FormatInt(c.pid));
            var r := Step(st, conn, line);
            && POS_PREFIX <= line
            && r.streams == st.streams
            && r.windows.Keys == st.windows.Keys
            && (name in st.windows ==> r.windows[name] == Placed(st.windows[name], c.w, c.h))
            && (forall l :: l in st.windows && l != name ==> r.windows[l] == st.windows[l])
  {
  }

  /** For widths and heights from 0 up to 2^31 - 1000 the overlay lands exactly at (-w-1000, -h-1000) with size (w, h). */
  lemma PlacedInRange(win: Window, w: int, h: int)
    requires 0 <= w <= 0x8000_0000 - 1000 && 0 <= h <= 0x8000_0000 - 1000
    ensures Placed(win, w, h) == Window(-w - 1000, -h - 1000, Some(Size(w, h)), win.url)
  {
    assert IsI32(-1 * w) && IsI32(-1 * w - 1000);
    assert IsI32(-1 * h) && IsI32(-1 * h - 1000);
  }

  /**
   * A width of i32::MAX wraps the position around: the overlay is sent far
   * to the right instead of to the left.
   */
  lemma PlacedWraps(win: Window, h: int)
    ensures Placed(win, I32_MAX, h).x == 0x8000_0000 - 999
  {
    assert WrapI32(-1 * I32_MAX) == -1 * I32_MAX;
    assert (-1 * I32_MAX - 1000) % U32_LIMIT == 0x8000_0000 - 999;
  }

  /**
   * `show_overlay:` opens the off-screen overlay of its pid, labelled by the
   * pid's decimal text, unless one is already open; the registry is untouched.
   */
  lemma ShowEffect(st: Shared, conn: ConnId, line: string)
    requires ParseCommand(line).Show?
    ensures var pid := ParseCommand(line).pid;
            var name := OverlayLabel(FormatInt(pid));
            var r := Step(st, conn, line);
            && SHOW_PREFIX <= line
            && r.streams == st.streams
            && name in r.windows && r.windows.Keys == st.windows.Keys + {name}
            && (name in st.windows ==> r == st)
            && (name !in st.windows ==> r.windows[name] == Window(OFF_SCREEN, OFF_SCREEN, None, URL_PREFIX + FormatInt(pid)))
  {
  }

  /**
   * `hide_overlay:` closes the window labelled with its raw second field, if
   * there is one, and nothing else.
   */
  lemma HideEffect(st: Shared, conn: ConnId, line: string)
    requires ParseCommand(line).Hide?
    ensures var name := OverlayLabel(ParseCommand(line).field);
            var r := Step(st, conn, line);
            && HIDE_PREFIX <= line
            && r.streams == st.streams
            && name !in r.windows
            && r.windows.Keys == st.windows.Keys - {name}
            && (forall l :: l in r.windows ==> r.windows[l] == st.windows[l])
  {
  }

  /** Hiding a pid's overlay right after showing it leaves the windows as they were before. */
  lemma ShowThenHide(st: Shared, conn: ConnId, pid: int)
    requires IsI32(pid) && OverlayLabel(FormatInt(pid)) !in st.windows
    ensures var shown := Step(st, conn, FormatCommand(Show(pid)) + "\n");
            Step(shown, conn, FormatCommand(Hide(FormatInt(pid))) + "\n") == st
  {
    var shown := Apply(st, conn, Show(pid));
    assert Step(st, conn, FormatCommand(Show(pid)) + "\n") == shown by {
      ParseFormat(Show(pid));
    }
    assert Step(shown, conn, FormatCommand(Hide(FormatInt(pid))) + "\n") == Apply(shown, conn, Hide(FormatInt(pid))) by {
      FormatIntPlain(pid);
      ParseFormat(Hide(FormatInt(pid)));
    }
    OpenThenClose(st, conn, pid);
  }

  lemma OpenThenClose(st: Shared, conn: ConnId, pid: int)
    requires OverlayLabel(FormatInt(pid)) !in st.windows
    ensures Apply(Apply(st, conn, Show(pid)), conn, Hide(FormatInt(pid))) == st
  {
    var name := OverlayLabel(FormatInt(pid));
    var shown := Apply(st, conn, Show(pid));
    assert shown.windows == st.windows[name := Window(OFF_SCREEN, OFF_SCREEN, None, URL_PREFIX + FormatInt(pid))];
    assert shown.windows - {name} == st.windows;
  }

  /**
   * `hide_overlay:` does not parse its field, so `hide_overlay:+5` does not
   * close the overlay that `show_overlay:+5` opened (labelled `...:5`).
   */
  lemma HideMatchesTextNotPid(st: Shared, conn: ConnId, line: string, field: string, pid: int)
    requires ParseCommand(line) == Hide(field) && ParseI32(field) == Some(pid) && field != FormatInt(pid)
    requires OverlayLabel(FormatInt(pid)) in st.windows
    ensures OverlayLabel(FormatInt(pid)) in Step(st, conn, line).windows
  {
    if OverlayLabel(FormatInt(pid)) == OverlayLabel(field) {
      OverlayLabelInjective(FormatInt(pid), field);
    }
  }

  /**
   * A worker only ever registers its own connection: every entry afterwards
   * was there before, unchanged, or names `conn`.
   */
  lemma {:induction false} WorkRegistersOwnConnection(st: Shared, conn: ConnId, input: seq<Read>)
    ensures var r := Work(st, conn, input).streams;
            forall pid :: pid in r ==> r[pid] == conn || (pid in st.streams && r[pid] == st.streams[pid])
    decreases |input|
  {
    if input != [] && !Stops(input[0]) {
      var c := ParseCommand(input[0].text);
      var next := Apply(st, conn, c);
      WorkOn(st, conn, input, input[0].text);
      WorkRegistersOwnConnection(next, conn, input[1..]);
    }
  }

  /** Whatever follows a failed or empty read is never looked at. */
  lemma {:induction false} IgnoredAfterStop(st: Shared, conn: ConnId, before: seq<Read>, stop: Read, rest: seq<Read>)
    requires Stops(stop)
    ensures Work(st, conn, before + [stop] + rest) == Work(st, conn, before)
    decreases |before|
  {
    var input := before + [stop] + rest;
    if before == [] {
      assert input[0] == stop;
    } else {
      assert input[0] == before[0];
      if !Stops(before[0]) {
        assert input[1..] == before[1..] + [stop] + rest;
        IgnoredAfterStop(Step(st, conn, before[0].text), conn, before[1..], stop, rest);
      }
    }
  }

  /**
   * After a worker has read `init:<pid>`, a message for that pid goes to the
   * worker's connection, as one line.
   */
  lemma InitThenSend(st: Shared, conn: ConnId, pid: int, output: map<ConnId, string>, message: string)
    requires IsI32(pid)
    ensures var r := Work(st, conn, [Received(FormatCommand(Init(pid)) + "\n")]);
            var (result, written) := Send(r.streams, output, pid, message);
            && result == Success(())
            && Written(written, conn) == Written(output, conn) + message + "\n"
  {
    var line := FormatCommand(Init(pid)) + "\n";
    ParseFormat(Init(pid));
    assert Work(st, conn, [Received(line)]) == Work(Step(st, conn, line), conn, []);
  }
}
