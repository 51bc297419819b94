/**
 * main.c: the CGI program behind the radio web page. A posted
 * `control=<index>` line selects one of five transport controls; otherwise
 * the query string names a station, whose playlist file gives the URL to
 * play. Both are carried out by running the controller script, and a
 * station that starts playing is remembered in "station_recent".
 *
 * Standard input, the readable files, the exit status of each controller
 * run and whether "station_recent" can be opened for writing are given to
 * the model as data.
 */
module RadioCgi {
  import opened Wrappers
  import opened CString
  import opened Decimal

  /** `cfg_.pls_dir`, where the playlists are. */
  const PlsDir: string := "/srv/ftp/radio"

  /** A row of `controls_`: the controller command, its argument (NULL for none) and the button caption. */
  datatype Control = Control(cmd: string, arg: Option<string>, caption: string)

  /** `controls_`, the five controls the page offers, by index. */
  function Controls(): (c: seq<Control>)
    ensures |c| == 5
    ensures forall i :: 0 <= i < |c| ==> c[i].cmd == "stop" || c[i].cmd == "volu" || c[i].cmd == "vold"
    ensures forall i :: 0 <= i < |c| ==> (c[i].cmd == "stop" <==> c[i].arg.None?)
    ensures forall i :: 0 <= i < |c| && c[i].arg.Some? ==> c[i].arg.value == "1" || c[i].arg.value == "3"
  {
    [Control("stop", None, "Stop"),
     Control("volu", Some("1"), "Vol +"),
     Control("volu", Some("3"), "Vol +++"),
     Control("vold", Some("3"), "Vol ---"),
     Control("vold", Some("1"), "Vol -")]
  }

  /**
   * `_is_control_index`: the index `strtoul` reads from the whole of the C
   * string `str` when it is below the number of controls, else -1.
   */
  function IsControlIndex(str: Option<string>): (r: int)
    ensures r == -1 || 0 <= r < |Controls()|
    ensures str.None? || str.value == [] ==> r == -1
    ensures str.Some? ==>
              var s := CStr(str.value);
              var c := StrToUL(s);
              && (r != -1 <==> 0 < c.end == |s| && c.value < |Controls()|)
              && (r != -1 ==> r == c.value)
    ensures str.Some? && CStr(str.value) != [] && !IsDigit(CStr(str.value)[|CStr(str.value)| - 1]) ==> r == -1
  {
    if str.None? then -1
    else
      var s := CStr(str.value);
      var c := StrToUL(s);
      StrToULEndsAfterDigit(s);
      // something was converted, and it ends the string
      if 0 < c.end == |s| && c.value < |Controls()| then c.value else -1
  }

  /** On a plain string of digits the index is its value when that is below 5, and -1 otherwise. */
  lemma IsControlIndexOfDigits(s: string)
    requires s != [] && AllDigits(s)
    ensures IsControlIndex(Some(s)) == if Value(s) < 5 then Value(s) else -1
  {
    assert '\0' !in s by {
      assert forall k :: 0 <= k < |s| ==> IsDigit(s[k]);
    }
    CStrOfPlain(s);
    StrToULOfDigits(s);
  }

  /** Only the C string counts: whatever follows a NUL is not looked at. */
  lemma IsControlIndexStopsAtNul(s: string, rest: string)
    requires '\0' !in s
    ensures IsControlIndex(Some(s + ['\0'] + rest)) == IsControlIndex(Some(s))
  {
    var buf := s + ['\0'] + rest;
    assert buf[..|s|] == s;
    CStrTerminated(buf, s);
  }

  /**
   * `strtoul` skips leading whitespace and takes a '+' sign, so whitespace
   * and a '+' before the digits select the same control as the digits alone.
   */
  lemma IsControlIndexSpaceAndSign(w: string, sg: string, d: string)
    requires forall k :: 0 <= k < |w| ==> IsSpace(w[k])
    requires sg == "" || sg == "+"
    requires AllDigits(d)
    ensures IsControlIndex(Some(w + sg + d)) == IsControlIndex(Some(d))
  {
    var s := w + sg + d;
    assert '\0' !in s by {
      forall k | 0 <= k < |s| ensures s[k] != '\0' {
        if k < |w| {
          assert s[k] == w[k];
        } else if k >= |w| + |sg| {
          assert s[k] == d[k - |w| - |sg|];
        }
      }
    }
    assert '\0' !in d by {
      assert forall k :: 0 <= k < |d| ==> IsDigit(d[k]);
    }
    CStrOfPlain(s);
    CStrOfPlain(d);
    StrToULSkipsSpaceAndPlus(w, sg, d);
    if d != [] {
      StrToULOfDigits(d);
    }
  }

  /** GNU `basename`: what follows the last '/' (everything when there is none). */
  function Basename(s: string): (b: string)
    ensures '/' !in b
    ensures |b| <= |s| && s[|s| - |b|..] == b
    ensures |b| < |s| ==> s[|s| - |b| - 1] == '/'
  {
    if s == [] || s[|s| - 1] == '/' then []
    else
      var b := Basename(s[..|s| - 1]) + [s[|s| - 1]];
      assert s[|s| - |b|..] == s[..|s| - 1][|s| - |b|..] + [s[|s| - 1]];
      b
  }

  /** `_pls_path_from_basename`: the playlist directory, '/', the name's last path component and ".pls". */
  function PlsPath(fname: string): string {
    PlsDir + "/" + Basename(fname) + ".pls"
  }

  /** The playlist path lies in "/srv/ftp/radio/", ends in ".pls", and names a '/'-free component that ends the name. */
  lemma PlsPathShape(fname: string)
    ensures var path := PlsPath(fname);
            && |path| >= 19 && path[..15] == "/srv/ftp/radio/" && path[|path| - 4..] == ".pls"
            && '/' !in path[15..|path| - 4]
            && |path| - 19 <= |fname| && fname[|fname| - (|path| - 19)..] == path[15..|path| - 4]
            && (|path| - 19 < |fname| ==> fname[|fname| - (|path| - 19) - 1] == '/')
  {
    var b := Basename(fname);
    var path := PlsDir + "/" + b + ".pls";
    assert path[15..|path| - 4] == b;
  }

  /** A name without '/' is its own playlist name. */
  lemma PlsPathOfPlainName(fname: string)
    requires '/' !in fname
    ensures PlsPath(fname) == "/srv/ftp/radio/" + fname + ".pls"
  {
    BasenameOfPlainName(fname);
  }

  lemma {:induction false} BasenameOfPlainName(s: string)
    requires '/' !in s
    ensures Basename(s) == s
  {
    if s != [] {
      var p, last := s[..|s| - 1], s[|s| - 1];
      assert s == p + [last];
      assert last != '/' by {
        assert last in s;
      }
      assert '/' !in p by {
        assert forall k :: 0 <= k < |p| ==> p[k] == s[k];
      }
      BasenameOfPlainName(p);
    }
  }

  /** ASCII lower case, as `strcasestr` compares. */
  function Lower(c: char): char {
    if 'A' <= c <= 'Z' then (c as int + 32) as char else c
  }

  /** `pat` occurs in `t` at `i`, ignoring case. */
  predicate MatchesAt(t: string, i: nat, pat: string) {
    i + |pat| <= |t| && forall k :: 0 <= k < |pat| ==> Lower(t[i + k]) == Lower(pat[k])
  }

  /** `strcasestr`, searching from `from`: the first case-insensitive occurrence of `pat`. */
  function StrCaseStr(t: string, pat: string, from: nat := 0): (r: Option<nat>)
    requires from <= |t|
    ensures r.Some? ==> from <= r.value && MatchesAt(t, r.value, pat)
    ensures r.Some? ==> forall j :: from <= j < r.value ==> !MatchesAt(t, j, pat)
    ensures r.None? ==> forall j :: from <= j <= |t| ==> !MatchesAt(t, j, pat)
    decreases |t| - from
  {
    if from + |pat| > |t| then None
    else if MatchesAt(t, from, pat) then Some(from)
    else StrCaseStr(t, pat, from + 1)
  }

  /** `strchrnul`, from `from`: the first `c` there or later, or the end of the string. */
  function StrChrNul(t: string, from: nat, c: char): (r: nat)
    requires from <= |t|
    ensures from <= r <= |t| && (r < |t| ==> t[r] == c)
    ensures forall j :: from <= j < r ==> t[j] != c
    decreases |t| - from
  {
    if from == |t| || t[from] == c then from else StrChrNul(t, from + 1, c)
  }

  /**
   * What `_url_from_pls` finds in a playlist's contents: from the first
   * case-insensitive "file" to the end of its line, whatever follows the
   * first '=' there, unless that is nothing.
   */
  function PlsUrl(contents: string): Option<string> {
    var t := CStr(contents);
    match StrCaseStr(t, "file")
    case None => None
    case Some(i) =>
      var lineEnd := StrChrNul(t, i, '\n');
      var eq := StrChrNul(t[..lineEnd], i, '=');
      if eq + 1 < lineEnd then Some(t[eq + 1..lineEnd]) else None
  }

  /**
   * A URL found is not empty, holds no newline (nor NUL), and is the rest of
   * the line of the first "file" after the first '=' that follows it there.
   */
  lemma PlsUrlValue(contents: string)
    requires PlsUrl(contents).Some?
    ensures var t, v := CStr(contents), PlsUrl(contents).value;
            var i := StrCaseStr(t, "file").value;
            var lineEnd := StrChrNul(t, i, '\n');
            && v != [] && '\n' !in v && '\0' !in v
            && i + 4 < lineEnd - |v| <= lineEnd <= |t|
            && t[lineEnd - |v|..lineEnd] == v && t[lineEnd - |v| - 1] == '='
            && (forall j :: i <= j < lineEnd - |v| - 1 ==> t[j] != '=')
            && (lineEnd == |t| || t[lineEnd] == '\n')
  {
    var t := CStr(contents);
    var i := StrCaseStr(t, "file").value;
    var lineEnd := StrChrNul(t, i, '\n');
    var eq := StrChrNul(t[..lineEnd], i, '=');
    var v := t[eq + 1..lineEnd];
    assert eq > i + 3 by {
      NoEqualsInMatch(t, i);
      assert forall j :: i <= j < eq ==> t[..lineEnd][j] == t[j];
    }
    forall k | 0 <= k < |v| ensures v[k] != '\n' && v[k] != '\0' {
      assert v[k] == t[eq + 1 + k];
    }
  }

  /** The four characters of a match of "file" are not '='. */
  lemma NoEqualsInMatch(t: string, i: nat)
    requires MatchesAt(t, i, "file")
    ensures forall j :: i <= j < i + 4 ==> t[j] != '='
  {
    forall j | i <= j < i + 4 ensures t[j] != '=' {
      assert Lower(t[i + (j - i)]) == Lower("file"[j - i]);
    }
  }

  /**
   * No URL exactly when there is no "file", or no '=' after it on its line
   * except perhaps as the line's last character.
   */
  lemma PlsUrlNone(contents: string)
    ensures var t := CStr(contents);
            var found := StrCaseStr(t, "file");
            PlsUrl(contents).None? <==>
              || found.None?
              || (var lineEnd := StrChrNul(t, found.value, '\n');
                  forall j :: found.value <= j < lineEnd - 1 ==> t[j] != '=')
  {
    var t := CStr(contents);
    var found := StrCaseStr(t, "file");
    if found.Some? {
      var i := found.value;
      var lineEnd := StrChrNul(t, i, '\n');
      var eq := StrChrNul(t[..lineEnd], i, '=');
      assert forall j :: i <= j < eq ==> t[j] != '=' by {
        assert forall j :: i <= j < eq ==> t[..lineEnd][j] == t[j];
      }
      assert eq < lineEnd ==> t[eq] == '=' by {
        assert eq < lineEnd ==> t[..lineEnd][eq] == t[eq];
      }
    }
  }

  /** How many characters `fgets(buf, max + 1, stdin)` takes from `input`: a line with its newline, at most `max`. */
  function LineLength(input: seq<char>, max: nat): (n: nat)
    ensures n <= max && n <= |input|
    ensures forall k :: 0 <= k < n - 1 ==> input[k] != '\n'
    ensures n < max && n < |input| ==> n > 0 && input[n - 1] == '\n'
    ensures input != [] && max > 0 ==> n > 0
  {
    if max == 0 || input == [] then 0
    else if input[0] == '\n' then 1
    else 1 + LineLength(input[1..], max - 1)
  }

  /** `sizeof(buf)` in `_process_post_controls`: room for "control=", three more characters and the NUL. */
  const PostBufSize: nat := 12

  /** The line `_process_post_controls` classifies: what `fgets` reads into its buffer, chomped. */
  function PostedLine(input: seq<char>): string {
    TrimRight(CStr(input[..LineLength(input, PostBufSize - 1)]))
  }

  /** The control a posted line selects, or -1 when it is not `control=` followed by a valid index. */
  function PostedIndex(input: seq<char>): (r: int)
    ensures r == -1 || 0 <= r < |Controls()|
  {
    var line := PostedLine(input);
    if |line| >= 8 && line[..8] == "control=" then IsControlIndex(Some(line[8..])) else -1
  }

  /** At most 11 characters are read, so at most three follow "control=". */
  lemma PostedLineShort(input: seq<char>)
    ensures |PostedLine(input)| <= PostBufSize - 1
    ensures |PostedLine(input)| >= 8 ==> |PostedLine(input)[8..]| <= 3
  {
    TrimRightSplit(CStr(input[..LineLength(input, PostBufSize - 1)]));
  }

  /** One run of the controller script: its command and argument. */
  datatype Invocation = Invocation(command: string, arg: Option<string>)

  /** The controller runs a posted line leads to: the selected control's, or none. */
  function PostedRuns(readError: bool, input: seq<char>): (runs: seq<Invocation>)
    ensures |runs| <= 1
    ensures readError || PostedIndex(input) == -1 <==> runs == []
    ensures forall i :: 0 <= i < |runs| ==> runs[i].command in {"stop", "volu", "vold"}
  {
    if readError || PostedIndex(input) == -1 then []
    else
      var c := Controls()[PostedIndex(input)];
      [Invocation(c.cmd, c.arg)]
  }

  /** One CGI request: standard input, the files it reads, and "station_recent". */
  class Cgi {
    /** Standard input not yet read. */
    var stdin: seq<char>
    /** Whether reading standard input fails. */
    const stdinError: bool
    /** The files that can be read. */
    const files: FileSystem
    /** Contents of "station_recent". */
    var stationRecent: Option<string>
    /** Whether "station_recent" can be opened for writing. */
    const recentWritable: bool
    /** Every run of the controller script, in order. */
    var spawned: seq<Invocation>
    /** outcomes[i]: whether the i-th run exits 0 (missing entries: it does not). */
    const outcomes: seq<bool>

    constructor (stdin: seq<char>, stdinError: bool, files: FileSystem,
                 stationRecent: Option<string>, recentWritable: bool, outcomes: seq<bool>)
      ensures this.stdin == stdin && this.stdinError == stdinError && this.files == files
      ensures this.stationRecent == stationRecent && this.recentWritable == recentWritable
      ensures this.outcomes == outcomes && spawned == []
    {
      this.stdin := stdin;
      this.stdinError := stdinError;
      this.files := files;
      this.stationRecent := stationRecent;
      this.recentWritable := recentWritable;
      this.outcomes := outcomes;
      spawned := [];
    }

    predicate Succeeds(i: nat) {
      i < |outcomes| && outcomes[i]
    }

    /** `_send_to_player`: runs the controller unless the command is NULL or empty; true when it exits 0. */
    method SendToPlayer(command: Option<string>, arg: Option<string>) returns (ok: bool)
      modifies this
      ensures command.None? || command.value == [] ==> !ok && spawned == old(spawned)
      ensures command.Some? && command.value != [] ==>
                spawned == old(spawned) + [Invocation(command.value, arg)] && ok == Succeeds(|old(spawned)|)
      ensures stdin == old(stdin) && stationRecent == old(stationRecent)
    {
      if command.None? || command.value == [] {
        return false;
      }
      ok := Succeeds(|spawned|);
      spawned := spawned + [Invocation(command.value, arg)];
    }

    /**
     * `fgets(buf, buf.Length, stdin)`: false on a read error or at end of
     * input; otherwise the next line (at most buf.Length - 1 characters)
     * followed by a NUL.
     */
    method FGets(buf: array<char>) returns (ok: bool)
      requires buf.Length >= 2
      modifies this, buf
      ensures ok <==> !stdinError && old(stdin) != []
      ensures !ok ==> stdin == old(stdin)
      ensures ok ==>
                var n := LineLength(old(stdin), buf.Length - 1);
                buf[..n] == old(stdin)[..n] && buf[n] == '\0' && stdin == old(stdin)[n..]
      ensures spawned == old(spawned) && stationRecent == old(stationRecent)
    {
      if stdinError || stdin == [] {
        return false;
      }
      var n := LineLength(stdin, buf.Length - 1);
      forall k | 0 <= k < n {
        buf[k] := stdin[k];
      }
      buf[n] := '\0';
      stdin := stdin[n..];
      ok := true;
    }

    /**
     * `_process_post_controls`: 0 when there is no posted line; -1 on a read
     * error, on a line that is not a valid control, or when the controller
     * fails; 1 when the selected control was carried out.
     */
    method ProcessPostControls() returns (r: int)
      modifies this
      ensures r == -1 || r == 0 || r == 1
      ensures r == 0 <==> !stdinError && old(stdin) == []
      ensures stationRecent == old(stationRecent)
      ensures stdinError || old(stdin) == [] || PostedIndex(old(stdin)) == -1 ==>
                spawned == old(spawned) && r != 1
      ensures stdinError || old(stdin) != [] ==> spawned == old(spawned) + PostedRuns(stdinError, old(stdin))
      ensures !stdinError && old(stdin) != [] && PostedIndex(old(stdin)) != -1 ==> (r == 1 <==> Succeeds(|old(spawned)|))
    {
      var buf := new char[PostBufSize];
      var got := FGets(buf);
      if !got {
        if stdinError {
          return -1;
        }
        return 0;
      }
      ghost var line := old(stdin)[..LineLength(old(stdin), PostBufSize - 1)];
      assert buf[..|line|] == line;
      CStrTerminated(buf[..], line);
      assert '\0' in buf[..] by {
        assert buf[..][|line|] == '\0';
      }
      var _ := Chomp(buf);
      var s := CStr(buf[..]);
      assert s == PostedLine(old(stdin));
      if !(|s| >= 8 && s[..8] == "control=") {
        return -1;
      }
      var index := IsControlIndex(Some(s[8..]));
      if index == -1 {
        return -1;
      }
      var ok := SendToPlayer(Some(Controls()[index].cmd), Controls()[index].arg);
      r := if ok then 1 else -1;
    }

    /**
     * `_url_from_pls`: None for a NULL or empty path or an unreadable file;
     * otherwise the URL the playlist's contents give. The line is cut at its
     * newline by writing a NUL into the file's buffer.
     */
    method UrlFromPls(pls: Option<string>) returns (url: Option<string>)
      ensures pls.None? || pls.value == [] || pls.value !in files ==> url.None?
      ensures pls.Some? && pls.value != [] && pls.value in files ==> url == PlsUrl(files[pls.value])
    {
      if pls.None? || pls.value == [] {
        return None;
      }
      var contents := GetFileContents(files, pls);
      if contents == null {
        return None;
      }
      CStrTerminated(contents[..], files[pls.value]);
      var t := CStr(contents[..]);
      StrLenOfTerminated(contents[..]);
      var found := StrCaseStr(t, "file");
      if found.None? {
        return None;
      }
      var urlEnd := StrChrNul(t, found.value, '\n');
      CutAt(contents, urlEnd);
      var eq := StrChrNul(CStr(contents[..]), found.value, '=');
      if urlEnd > eq + 1 {
        url := Some(contents[eq + 1..urlEnd]);
        assert contents[eq + 1..urlEnd] == t[eq + 1..urlEnd];
      } else {
        url := None;
      }
    }

    /** `*url_end = 0`: cuts the C string in `buf` at `at`. */
    static method CutAt(buf: array<char>, at: nat)
      requires at <= StrLen(buf[..]) < buf.Length
      modifies buf
      ensures buf[..at] == old(buf[..at]) && CStr(buf[..]) == old(CStr(buf[..]))[..at]
    {
      ghost var t := CStr(buf[..]);
      buf[at] := '\0';
      assert buf[..at] == t[..at];
      CStrTerminatedAt(buf[..], at);
    }

    /** `_save_last_played`: overwrites "station_recent" with `name` when it can be opened. */
    method SaveLastPlayed(name: string) returns (ok: bool)
      modifies this
      ensures ok == recentWritable
      ensures stationRecent == if recentWritable then Some(name) else old(stationRecent)
      ensures spawned == old(spawned) && stdin == old(stdin)
    {
      if recentWritable {
        stationRecent := Some(name);
        return true;
      }
      return false;
    }

    /** The URL a station name leads to: its playlist's, when that file can be read. */
    function StationUrl(station: string): Option<string> {
      var path := PlsPath(station);
      if path in files then PlsUrl(files[path]) else None
    }

    /**
     * What processing the query string `query` does to the record of runs
     * and to "station_recent", starting from `spawned0` and `recent0`, with
     * result `r`: nothing for an absent or empty query or a station without a
     * URL; otherwise one "play" run, and "station_recent" saved only when it
     * succeeded.
     */
    ghost predicate QueryOutcome(query: Option<string>, spawned0: seq<Invocation>,
                                 recent0: Option<string>, r: int)
      reads this
    {
      if query.None? || query.value == [] || StationUrl(query.value).None? then
        r == 0 && spawned == spawned0 && stationRecent == recent0
      else
        && spawned == spawned0 + [Invocation("play", StationUrl(query.value))]
        && (r == 1 <==> Succeeds(|spawned0|)) && (r == 0 || r == 1)
        && stationRecent == if r == 1 && recentWritable then Some(query.value) else recent0
    }

    /**
     * `_process_query_string`: plays the station the query names and, only if
     * the controller reports success, saves the query as the last station.
     */
    method ProcessQueryString(query: Option<string>) returns (r: int)
      modifies this
      ensures QueryOutcome(query, old(spawned), old(stationRecent), r)
      ensures stdin == old(stdin)
    {
      if query.None? || query.value == [] {
        return 0;
      }
      r := 0;
      var plsPath := PlsPath(query.value);
      var url := UrlFromPls(Some(plsPath));
      if url.Some? {
        var ok := SendToPlayer(Some("play"), url);
        if ok {
          var _ := SaveLastPlayed(query.value);
          r := 1;
        }
      }
    }

    /**
     * `main`, without the page it prints: a posted line, valid or not, is
     * handled as a control and the query string is then ignored; only with
     * nothing posted is the query string's station played.
     */
    method HandleRequest(query: Option<string>)
      modifies this
      ensures stdinError || old(stdin) != [] ==>
                && stationRecent == old(stationRecent)
                && spawned == old(spawned) + PostedRuns(stdinError, old(stdin))
                && forall i :: |old(spawned)| <= i < |spawned| ==> spawned[i].command != "play"
      ensures !stdinError && old(stdin) == [] ==>
                exists r :: QueryOutcome(query, old(spawned), old(stationRecent), r)
    {
      var posted := ProcessPostControls();
      if posted == 0 {
        var r := ProcessQueryString(query);
      }
    }
  }
}
