/**
 * omxctl.c: the command-line controller of the omxplayer media player. It
 * sends D-Bus actions to a running player, starts a player on a file, and
 * steps the volume, keeping the current volume in the file "volume". `_init`
 * finds the player's D-Bus session from the files it leaves in /tmp.
 *
 * The environment is given to the model as data: `Omx.replies` says which
 * `dbus-send` calls exit 0, and whether a player is running (`pgrep`), the
 * `fork` of a new player and opening "volume" for writing succeed are
 * parameters of the methods that depend on them.
 */
module OmxCtl {
  import opened Wrappers
  import opened CString
  import opened Decimal
  import opened AStrCat

  /** `enum omx_action_`. */
  datatype OmxAction = Volu | Vold | Stop | Pause | HideVideo | ShowVideo | ToggleSubs | HideSubs | ShowSubs

  /** `omx_actions_`: name and D-Bus payload of each action, in enum order (the NULL row left out). */
  const ActionTable: seq<(string, string)> :=
    [("volu", "int32:18"), ("vold", "int32:17"), ("stop", "int32:15"),
     ("pause", "int32:16"), ("hidevideo", "int32:28"), ("showvideo", "int32:29"),
     ("togglesubs", "int32:12"), ("hidesubs", "int32:30"), ("showsubs", "int32:31")]

  /** The enumerator's integer value. */
  function Index(a: OmxAction): (i: nat)
    ensures i < |ActionTable|
  {
    match a
    case Volu => 0
    case Vold => 1
    case Stop => 2
    case Pause => 3
    case HideVideo => 4
    case ShowVideo => 5
    case ToggleSubs => 6
    case HideSubs => 7
    case ShowSubs => 8
  }

  /** `omx_actions_[action].value`, the argument `_omx_action` passes to `dbus-send`. */
  function ActionValue(a: OmxAction): string {
    ActionTable[Index(a)].1
  }

  /** The table is indexed by the enum: each row names its enumerator, and distinct actions send distinct payloads. */
  lemma ActionTableMatchesEnum()
    ensures ActionValue(Volu) == "int32:18" && ActionTable[Index(Volu)].0 == "volu"
    ensures ActionValue(Vold) == "int32:17" && ActionTable[Index(Vold)].0 == "vold"
    ensures ActionValue(Stop) == "int32:15" && ActionTable[Index(Stop)].0 == "stop"
    ensures ActionValue(Pause) == "int32:16" && ActionTable[Index(Pause)].0 == "pause"
    ensures ActionValue(HideVideo) == "int32:28" && ActionTable[Index(HideVideo)].0 == "hidevideo"
    ensures ActionValue(ShowVideo) == "int32:29" && ActionTable[Index(ShowVideo)].0 == "showvideo"
    ensures ActionValue(ToggleSubs) == "int32:12" && ActionTable[Index(ToggleSubs)].0 == "togglesubs"
    ensures ActionValue(HideSubs) == "int32:30" && ActionTable[Index(HideSubs)].0 == "hidesubs"
    ensures ActionValue(ShowSubs) == "int32:31" && ActionTable[Index(ShowSubs)].0 == "showsubs"
    ensures forall a: OmxAction, b: OmxAction :: ActionValue(a) == ActionValue(b) ==> a == b
  {
  }

  /** `enum vol_`. */
  datatype Direction = Up | Down

  /** The action and the volume change of one step. */
  function StepAction(d: Direction): OmxAction {
    if d == Down then Vold else Volu
  }

  function StepSize(d: Direction): int {
    if d == Down then -300 else 300
  }

  /** `unsigned int` conversion of an `int`: modulo 2^32. */
  function UInt(v: int): nat {
    v % 0x1_0000_0000
  }

  /** n copies of action `a`. */
  function Repeated(a: OmxAction, n: nat): (s: seq<OmxAction>)
    ensures |s| == n && forall k :: 0 <= k < n ==> s[k] == a
  {
    if n == 0 then [] else Repeated(a, n - 1) + [a]
  }

  /**
   * The arguments `execl` gives the player: `--vol` followed by the volume
   * file's contents (up to their first NUL, as `execl` reads them) and the
   * file to play. When "volume" cannot be read that argument is NULL, which
   * ends the list there.
   */
  function PlayerArgv(volume: Option<string>, file: string): seq<string> {
    ["omxplayer", "-o", "local", "--vol"] + (if volume.Some? then [CStr(volume.value), file] else [])
  }

  /** `argv[2]`: NULL when there are only two arguments. */
  function Arg(argv: seq<string>): Option<string> {
    if |argv| > 2 then Some(argv[2]) else None
  }

  /**
   * The command lines on which `main` has defined behaviour: C strings, and
   * for a volume command a fourth letter 'u' or 'd' and an argument (the
   * code leaves the direction uninitialised, or calls `atoi(NULL)`, otherwise).
   */
  predicate Defined(argv: seq<string>) {
    && (forall i :: 0 <= i < |argv| ==> '\0' !in argv[i])
    && (|argv| >= 2 && |argv[1]| >= 3 && argv[1][..3] == "vol" ==>
          |argv[1]| >= 4 && (argv[1][3] == 'u' || argv[1][3] == 'd') && |argv| >= 3)
  }

  /** Where `main` sends a command line. */
  datatype Target =
    | Usage                                  // argc < 2
    | PlayFile(file: Option<string>)         // "play" with argv[2]
    | StopPlayer                             // "stop"
    | Volume(dir: Direction, repeat: nat)    // "volu…"/"vold…" with atoi(argv[2]) steps
    | Ignored                                // first letter p, s or v, but no exact match
    | Unknown                                // any other first letter: "Unknown command"

  /** The `switch` of `main` on the first letter of `argv[1]`. */
  function Route(argv: seq<string>): (r: Target)
    requires Defined(argv)
    ensures r == Usage <==> |argv| < 2
    ensures r.PlayFile? <==> |argv| >= 2 && argv[1] == "play"
    ensures r.PlayFile? ==> r.file == Arg(argv)
    ensures r.StopPlayer? <==> |argv| >= 2 && argv[1] == "stop"
    ensures r.Volume? <==> |argv| >= 2 && |argv[1]| >= 3 && argv[1][..3] == "vol"
    ensures r.Volume? ==> (r.dir == Up <==> argv[1][3] == 'u') && r.repeat == UInt(Atoi(argv[2]))
    ensures r == Unknown <==> |argv| >= 2 && (argv[1] == [] || argv[1][0] !in "psv")
  {
    if |argv| < 2 then Usage
    else
      var command := argv[1];
      if command == [] then Unknown
      else if command[0] == 'p' then
        if command == "play" then PlayFile(Arg(argv)) else Ignored
      else if command[0] == 's' then
        if command == "stop" then StopPlayer else Ignored
      else if command[0] == 'v' then
        if |command| >= 3 && command[..3] == "vol" then
          Volume(if command[3] == 'u' then Up else Down, UInt(Atoi(argv[2])))
        else Ignored
      else Unknown
  }

  /** The player as omxctl sees it, and the "volume" file. */
  class Omx {
    /** Contents of "volume"; None when it cannot be read. */
    var volumeFile: Option<string>
    /** Every action `_omx_action` has tried to send, in order. */
    var sent: seq<OmxAction>
    /** The argument list of every player started, in order. */
    var launched: seq<seq<string>>
    /** replies[i]: whether the i-th `dbus-send` exits 0 (missing entries: it does not). */
    const replies: seq<bool>

    constructor (volumeFile: Option<string>, replies: seq<bool>)
      ensures this.volumeFile == volumeFile && this.replies == replies
      ensures sent == [] && launched == []
    {
      this.volumeFile := volumeFile;
      this.replies := replies;
      sent := [];
      launched := [];
    }

    /** Whether the i-th action sent is acknowledged. */
    predicate Acked(i: nat) {
      i < |replies| && replies[i]
    }

    /** How many of the n actions sent from the `from`-th on are acknowledged. */
    function AckCount(from: nat, n: nat): (k: nat)
      ensures k <= n
      ensures k == 0 <==> forall i :: from <= i < from + n ==> !Acked(i)
    {
      if n == 0 then 0 else AckCount(from, n - 1) + (if Acked(from + n - 1) then 1 else 0)
    }

    /** `_omx_action`: one `dbus-send` of the action's payload; true when it exits 0. */
    method Action(a: OmxAction) returns (ok: bool)
      modifies this
      ensures sent == old(sent) + [a] && ok == Acked(|old(sent)|)
      ensures volumeFile == old(volumeFile) && launched == old(launched)
    {
      ok := Acked(|sent|);
      sent := sent + [a];
    }

    /**
     * What `_omx_play` does to the actions sent and the players started,
     * from `sent0` and `launched0`, with result `ok`.
     */
    ghost predicate PlayOutcome(file: Option<string>, running: bool, forkOk: bool,
                                sent0: seq<OmxAction>, launched0: seq<seq<string>>, ok: bool)
      reads this
    {
      if file.None? || file.value == [] then
        !ok && sent == sent0 && launched == launched0
      else
        && ok == forkOk
        && sent == sent0 + (if running then [Stop] else [])
        && launched == launched0 + (if forkOk then [PlayerArgv(volumeFile, file.value)] else [])
    }

    /**
     * `_omx_play`: nothing for a NULL or empty file; otherwise a stop when a
     * player is running (its outcome ignored), then the fork of a new player,
     * whose success is the result. The new player is not waited for.
     */
    method Play(file: Option<string>, running: bool, forkOk: bool) returns (ok: bool)
      modifies this
      ensures PlayOutcome(file, running, forkOk, old(sent), old(launched), ok)
      ensures volumeFile == old(volumeFile)
    {
      if file.None? || file.value == [] {
        return false;
      }
      if running {
        var _ := Action(Stop);
      }
      if !forkOk {
        return false;
      }
      launched := launched + [PlayerArgv(volumeFile, file.value)];
      ok := true;
    }

    /**
     * What `_omx_vol` does to the actions sent and to "volume", from `sent0`
     * and `volume0`, with result `r`.
     */
    ghost predicate VolOutcome(dir: Direction, repeat: nat, canWrite: bool,
                               sent0: seq<OmxAction>, volume0: Option<string>, r: int)
      reads this
    {
      if volume0.None? then
        r == 0 && sent == sent0 && volumeFile == volume0
      else
        var k := AckCount(|sent0|, repeat);
        var v := Atoi(volume0.value);
        && sent == sent0 + Repeated(StepAction(dir), repeat)
        && (r == 1 <==> k > 0) && (r == 0 <==> k == 0)
        && volumeFile == (if k > 0 && canWrite then Some(FormatInt(v + StepSize(dir) * k)) else volume0)
        && (k > 0 && canWrite ==>
              Atoi(volumeFile.value) == if dir == Up then v + 300 * k else v - 300 * k)
    }

    /**
     * `_omx_vol`: when "volume" can be read, sends `repeat` volume steps,
     * adds ±300 for each acknowledged one and, when the volume changed,
     * rewrites "volume" (if it can be opened) and returns 1. Otherwise 0,
     * and with an unreadable file no action is sent.
     */
    method Vol(dir: Direction, repeat: nat, canWrite: bool) returns (r: int)
      modifies this
      ensures launched == old(launched)
      ensures VolOutcome(dir, repeat, canWrite, old(sent), old(volumeFile), r)
    {
      if volumeFile.None? {
        return 0;
      }
      var vol := Atoi(volumeFile.value);
      var newVol, k := SendSteps(dir, vol, repeat);
      if newVol != vol {
        if canWrite {
          volumeFile := Some(FormatInt(newVol));
          AtoiFormatInt(newVol);
        }
        return 1;
      }
      return 0;
    }

    /**
     * The loop of `_omx_vol`: sends `repeat` steps in direction `dir` and
     * moves `vol` by one step for each acknowledged one.
     */
    method SendSteps(dir: Direction, vol: int, repeat: nat) returns (newVol: int, ghost k: nat)
      modifies this
      ensures sent == old(sent) + Repeated(StepAction(dir), repeat)
      ensures k == AckCount(|old(sent)|, repeat) && newVol == vol + StepSize(dir) * k
      ensures volumeFile == old(volumeFile) && launched == old(launched)
    {
      var action := StepAction(dir);
      var adjust := StepSize(dir);
      newVol := vol;
      ghost var from := |sent|;
      k := 0;
      var left := repeat;
      while left > 0
        invariant 0 <= left <= repeat
        invariant sent == old(sent) + Repeated(action, repeat - left)
        invariant k == AckCount(from, repeat - left)
        invariant newVol == vol + adjust * k
        invariant volumeFile == old(volumeFile) && launched == old(launched)
      {
        var ok := Action(action);
        if ok {
          newVol := newVol + adjust;
          k := k + 1;
        }
        left := left - 1;
      }
    }

    /**
     * `main`: routes the command line and returns its exit status, 0 exactly
     * when the routed action reports success.
     */
    method Run(argv: seq<string>, running: bool, forkOk: bool, canWrite: bool) returns (status: int)
      requires Defined(argv)
      modifies this
      ensures status == 0 || status == 1
      ensures match Route(argv)
        case Usage | Ignored | Unknown =>
          status == 1 && sent == old(sent) && launched == old(launched) && volumeFile == old(volumeFile)
        case StopPlayer =>
          && sent == old(sent) + [Stop] && (status == 0 <==> Acked(|old(sent)|))
          && launched == old(launched) && volumeFile == old(volumeFile)
        case PlayFile(file) =>
          && (status == 0 <==> file.Some? && file.value != [] && forkOk)
          && PlayOutcome(file, running, forkOk, old(sent), old(launched), status == 0)
          && volumeFile == old(volumeFile)
        case Volume(dir, n) =>
          && (status == 0 <==> old(volumeFile).Some? && AckCount(|old(sent)|, n) > 0)
          && VolOutcome(dir, n, canWrite, old(sent), old(volumeFile), 1 - status)
          && launched == old(launched)
    {
      status := 1;
      match Route(argv)
      case PlayFile(file) =>
        var ok := Play(file, running, forkOk);
        if ok {
          status := 0;
        }
      case StopPlayer =>
        var ok := Action(Stop);
        if ok {
          status := 0;
        }
      case Volume(dir, n) =>
        var r := Vol(dir, n, canWrite);
        if r != 0 {
          status := 0;
        }
      case _ =>
    }
  }

  /** Where the player leaves its D-Bus session address for user `user` (USER unset reads as ""). */
  function BusAddressPath(user: Option<string>): string {
    "/tmp/omxplayerdbus." + user.GetOr("")
  }

  function BusPidPath(user: Option<string>): string {
    BusAddressPath(user) + ".pid"
  }

  /** The values `_init` puts into DBUS_SESSION_BUS_ADDRESS and DBUS_SESSION_BUS_PID. */
  datatype BusEnv = BusEnv(address: string, pid: string)

  /**
   * `_init`: builds both paths with `astrcat`, reads both files and chomps
   * their contents. None when a path cannot be built or a file cannot be
   * read (`_init` then returns 0); otherwise the two values it exports.
   */
  method Init(user: Option<string>, fs: FileSystem, addrGrants: seq<bool>, pidGrants: seq<bool>)
    returns (env: Option<BusEnv>)
    requires user.Some? ==> '\0' !in user.value
    ensures env.Some? ==>
              && BusAddressPath(user) in fs && BusPidPath(user) in fs
              && env.value.address == TrimRight(CStr(fs[BusAddressPath(user)]))
              && env.value.pid == TrimRight(CStr(fs[BusPidPath(user)]))
    ensures BusAddressPath(user) !in fs || BusPidPath(user) !in fs ==> env.None?
    ensures (&& AllGranted(addrGrants) && AllGranted(pidGrants)
             && BusAddressPath(user) in fs && BusPidPath(user) in fs) ==> env.Some?
  {
    var addrPath, pidPath := BuildPaths(user, addrGrants, pidGrants);
    if addrPath.None? || pidPath.None? {
      return None;
    }
    var address := ReadChomped(fs, addrPath.value);
    var pid := ReadChomped(fs, pidPath.value);
    if address.None? || pid.None? {
      return None;
    }
    env := Some(BusEnv(address.value, pid.value));
  }

  /** The two `astrcat` calls of `_init`; the second gets NULL, and so gives NULL, when the first fails. */
  method BuildPaths(user: Option<string>, addrGrants: seq<bool>, pidGrants: seq<bool>)
    returns (addrPath: Option<string>, pidPath: Option<string>)
    requires user.Some? ==> '\0' !in user.value
    ensures addrPath.Some? ==> addrPath.value == BusAddressPath(user)
    ensures pidPath.Some? ==> addrPath.Some? && pidPath.value == BusPidPath(user)
    ensures AllGranted(addrGrants) && AllGranted(pidGrants) ==> addrPath.Some? && pidPath.Some?
  {
    var u := if user.Some? then user.value else "";
    var addrArgs := [Some("/tmp/omxplayerdbus."), Some(u), None];
    assert Joined(addrArgs, 2) == [];
    assert Joined(addrArgs) == BusAddressPath(user);
    var addr := AstrCat(addrArgs, addrGrants);
    addrPath := if addr == null then None else Some(CStr(addr[..]));
    var pidArgs := [addrPath, Some(".pid"), None];
    assert Joined(pidArgs, 2) == [];
    assert addrPath.Some? ==> Joined(pidArgs) == BusPidPath(user);
    JoinedNoNul(addrArgs);
    var pid := AstrCat(pidArgs, pidGrants);
    pidPath := if pid == null then None else Some(CStr(pid[..]));
  }

  /** `_get_file_contents` followed by `_chomp`: the file's C string without its trailing whitespace. */
  method ReadChomped(fs: FileSystem, path: string) returns (value: Option<string>)
    ensures path !in fs ==> value.None?
    ensures path in fs ==> value == Some(TrimRight(CStr(fs[path])))
  {
    var contents := GetFileContents(fs, Some(path));
    if contents == null {
      return None;
    }
    ghost var file := contents[..];
    CStrTerminated(file, fs[path]);
    assert '\0' in file by {
      assert file[|file| - 1] == '\0';
    }
    var _ := Chomp(contents);
    value := Some(CStr(contents[..]));
  }
}
