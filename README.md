# RPi-Radio controller, modelled in Dafny

RPi-Radio is a web radio for a Raspberry Pi. It has two C programs:

- `omxctl.c` is a command-line controller for the omxplayer media player.
  - `omxctl play <file>` starts a player on a file, stopping any player that is running.
  - `omxctl stop` sends the player a D-Bus stop action.
  - `omxctl volu <n>` and `omxctl vold <n>` send `n` volume steps of ±300 millibels each.
  - The current volume is kept in the file `volume`. The program rewrites that file only when at least one step was acknowledged.
- `main.c` is the CGI program behind the web page.
  - A posted line `control=<index>` picks one of five transport controls.
  - With nothing posted, the query string names a station. The program reads the station's `.pls` playlist and finds the stream URL.
  - It then runs the controller script with `play <url>`.
  - If that run succeeds, it writes the station name to `station_recent`.

The model is split into these files:

- `wrappers.dfy` defines `Option`, which stands for a C pointer that may be NULL.
- `cstring.dfy` covers C strings, which end at the first NUL.
  - `strlen`, C-locale `isspace`, and `_get_file_contents`. The file system is a map from path to contents.
  - The in-place `_chomp` as a method on a character array. Both source files define the same `_chomp`: omxctl.c:138-162 and main.c:37-61.
- `decimal.dfy` covers decimal text.
  - A simplified `atoi`, the output of `printf("%d")`, and a round-trip lemma between them.
  - Base-10 `strtoul` with a 32-bit `unsigned long`. That is the width on the 32-bit ARM target.
- `astrcat.dfy` covers `astrcat`, a loop that grows its buffer with `realloc`.
- `omxctl.dfy` covers the action table and `main`'s dispatch as pure functions, and `_init`, which builds the D-Bus file paths with `astrcat` and reads them. The class `Omx` holds the `volume` file, the list of actions sent and the list of players started. Its methods model `_omx_action`, `_omx_play`, `_omx_vol` and `main`.
- `radio.dfy` covers the `controls_` table, `_is_control_index`, `_pls_path_from_basename` and the playlist URL rule. The class `Cgi` holds standard input, the readable files, `station_recent` and the list of controller runs. Its methods model `_send_to_player`, `fgets`, `_process_post_controls`, `_url_from_pls`, `_process_query_string` and the post-before-query rule of `main`.

The outside world is given to the model as data:

- `Omx.replies` says which `dbus-send` calls exit 0.
- `Cgi.outcomes` says which controller runs exit 0.
- Parameters of the `Omx` methods give the other outcomes in omxctl: whether a player is running, whether the player's `fork` succeeds, and whether "volume" can be opened for writing.
- In the CGI program, the field `Cgi.recentWritable`, set by the constructor, says whether "station_recent" can be opened for writing. A failed `fork` in `_send_to_player` counts as a failed run in `Cgi.outcomes`.
- A `grants` sequence says which `realloc` calls succeed.

Notes on the code's behaviour:

- A volume step is ±300 millibels.
- `_omx_play` sends one stop when a player is running. It does not wait for the player to exit and does not retry.
- The volume is never read from the player's output; only the `volume` file holds it.
- Actions go over D-Bus only. There is no named-pipe channel.
- There is no locking around the `volume` file or `station_recent`.
- If the player can be launched, `play` succeeds even when the stop it sent first failed.

When the `volume` file cannot be read, `execl` gets a NULL after `--vol`. That NULL ends the argument list, so the player starts without the file to play. `PlayerArgv` records the argument list in exactly this truncated form. When the file can be read, `execl` reads its contents only up to the first NUL.

## Model

| member | source | states |
|---|---|---|
| CString.StrLen | omxctl.c:145-148 | the length of a C string is the index of its first NUL, or the buffer's size if there is none |
| CString.IsSpace | omxctl.c:154 | `isspace` in the C locale: space and the characters tab through carriage return |
| CString.TrimRight | omxctl.c:150-158 | the string without its longest whitespace suffix; its properties are `TrimRightSplit`, `TrimRightUnique` and `TrimRightIdempotent` |
| CString.TrimRightSplit | omxctl.c:150-158 | chomping keeps a prefix of the string, drops only whitespace, and leaves no trailing whitespace |
| CString.TrimRightUnique | omxctl.c:150-158 | what is removed is exactly the longest whitespace suffix; everything before it, inner whitespace included, stays |
| CString.TrimRightIdempotent | omxctl.c:138-162 | chomping twice gives the same string as chomping once |
| CString.Chomp | omxctl.c:138-162 | a NULL input returns NULL; otherwise every trailing whitespace character becomes NUL, no other character changes, the result points at the last character kept (offset -1 if none is kept), and the new C string is the old one with its trailing whitespace removed |
| CString.GetFileContents | omxctl.c:84-136 | NULL for a NULL path or an unreadable file; otherwise a fresh buffer holding the file's bytes followed by a NUL |
| Decimal.ValueOfFormatNat | omxctl.c:333 | the decimal digits printed for a natural number read back as that number |
| Decimal.AtoiFormatInt | omxctl.c:321-333 | the text `fprintf(fp, "%d", v)` writes to `volume` is read back by `atoi` as `v` |
| Decimal.Atoi | omxctl.c:321 | `atoi` of a plain digit string is the number it denotes |
| Decimal.FormatInt | omxctl.c:333 | `printf("%d")` writes a non-empty string without a NUL |
| Decimal.StrToUL | main.c:186 | the value is at most ULONG_MAX and the end lies within the string |
| Decimal.StrToULEndsAfterDigit | main.c:186-187 | when `strtoul` consumes any characters, the last one it consumes is a digit |
| Decimal.StrToULOfDigits | main.c:186 | on a plain digit string, `strtoul` consumes the whole string and returns its value, saturating at ULONG_MAX |
| Decimal.SpaceSpanOfSpaces | main.c:186 | leading whitespace is skipped whole |
| Decimal.StrToULSkipsSpace | main.c:186 | whitespace before the text changes only the end of the conversion, not its value |
| Decimal.StrToULSkipsPlus | main.c:186 | a '+' before digits changes only the end of the conversion, not its value |
| Decimal.StrToULSkipsSpaceAndPlus | main.c:186 | whitespace and an optional '+' before digits change only the end of the conversion, moving it by their length |
| AStrCat.JoinedLength | omxctl.c:50-71 | the result's length is the sum of the lengths of the arguments before the NULL terminator |
| AStrCat.Growths | omxctl.c:53-57 | the number of growth `realloc` calls: one for each argument for which `len + s_len + 1` exceeds the size, which then becomes size + 1024 + s_len |
| AStrCat.GrowthsOfOneArg | omxctl.c:53-57 | a single argument takes exactly one growth step, whatever its length |
| AStrCat.AstrCat | omxctl.c:32-82 | NULL when the first argument is NULL; otherwise NULL exactly when one of the `Growths(args)` growth `realloc` calls fails, so a failed final shrinking `realloc` keeps the buffer; the first pass always grows the empty buffer; a non-NULL buffer holds the in-order concatenation of the arguments before the terminator, followed by its NUL inside the buffer. Array bounds are checked at each copy and at the terminating write, so `dest_len + s_len + 1 <= dest_size` holds after each growth step |
| AStrCat.Gather | omxctl.c:49-70 | the loop stops with NULL right after the first failing growth `realloc`, every earlier call having succeeded; otherwise all `Growths(args)` calls succeeded and the buffer starts with the concatenation, with room for the NUL |
| AStrCat.GatherStep | omxctl.c:53-69 | one pass adds its argument to the concatenation and counts one growth exactly when the argument does not fit |
| AStrCat.Realloc | omxctl.c:56 | on failure NULL; on success a fresh block of the requested size that starts with the old block's contents |
| AStrCat.MemCpy | omxctl.c:67-68 | the source is copied after the first `at` characters, and nothing else changes |
| AStrCat.Reserve | omxctl.c:53-65 | the buffer grows exactly when `len + more + 1` exceeds its size, to size + 1024 + more, keeping its first `len` characters; the result is NULL only when that `realloc` fails |
| AStrCat.Append | omxctl.c:51-69 | one pass of the loop: after it the buffer holds the kept characters followed by the argument, with room for the NUL |
| AStrCat.Terminate | omxctl.c:72-79 | the NUL is written after the kept characters; a failed shrinking `realloc` keeps the buffer; the C string is the kept characters |
| OmxCtl.Init | omxctl.c:164-195 | the address path is "/tmp/omxplayerdbus." followed by USER ("" when USER is unset), and the pid path is that followed by ".pid"; the result fails when either file cannot be read; otherwise it holds both files' chomped contents; it succeeds when every allocation succeeds and both files can be read |
| OmxCtl.BuildPaths | omxctl.c:177-180 | the address path is "/tmp/omxplayerdbus." followed by USER, the pid path that followed by ".pid"; both are built when every allocation succeeds |
| OmxCtl.ReadChomped | omxctl.c:182-188 | no value for a missing file; otherwise the file's C string without its trailing whitespace |
| OmxCtl.ActionTableMatchesEnum | omxctl.c:9-24 | the table row for each enumerator carries its own name; VOLU sends "int32:18", VOLD "int32:17", STOP "int32:15", PAUSE "int32:16", HIDEVID "int32:28", SHOWVID "int32:29", SUBS_TOGGLE "int32:12", SUBS_HIDE "int32:30", SUBS_SHOW "int32:31"; distinct actions send distinct payloads |
| OmxCtl.Route | omxctl.c:345-399 | fewer than two arguments is a usage error; only the exact names "play" and "stop" reach those actions; any command starting with "vol" is a volume command, going up exactly when its fourth letter is 'u', with atoi(argv[2]) converted to unsigned as the step count; any other first letter is "Unknown command" |
| OmxCtl.PlayerArgv | omxctl.c:289-290 | the player's arguments: "omxplayer -o local --vol", then the `volume` contents up to their NUL and the file, or nothing more when `volume` cannot be read |
| OmxCtl.Omx.AckCount | omxctl.c:323-327 | at most `repeat` steps are acknowledged, and zero are acknowledged exactly when every reply was a failure |
| OmxCtl.Omx.Action | omxctl.c:199-233 | sends exactly one action and reports whether it was acknowledged; the volume file and the list of started players do not change |
| OmxCtl.Omx.PlayOutcome | omxctl.c:266-296 | the effect of `_omx_play`: for a NULL or empty file nothing and failure; otherwise one stop exactly when a player is running, success exactly when the fork succeeds, and then one new player with `PlayerArgv`'s arguments |
| OmxCtl.Omx.Play | omxctl.c:266-296 | a NULL or empty file sends and starts nothing and fails; otherwise it sends a stop exactly when a player is running, and it succeeds exactly when the fork succeeds, recording the player's arguments |
| OmxCtl.Omx.VolOutcome | omxctl.c:298-341 | the effect of `_omx_vol`: for an unreadable file 0 and nothing sent; otherwise `repeat` steps sent, 1 exactly when one was acknowledged, and the file rewritten to old ± 300·k when it changed and can be opened |
| OmxCtl.Omx.SendSteps | omxctl.c:321-327 | sends exactly `repeat` steps in the given direction and moves the volume by one step for each acknowledged one |
| OmxCtl.Omx.Vol | omxctl.c:298-341 | an unreadable volume file gives 0 and sends nothing; otherwise it sends exactly `repeat` steps in the given direction; with k acknowledged steps it returns 1 exactly when k > 0; the file is rewritten (when it can be opened) only then, and reads back as old + 300·k going up or old − 300·k going down; with k = 0 the file is left as it was |
| OmxCtl.Omx.Run | omxctl.c:345-399 | the exit status is 0 or 1; it is 0 exactly when the routed action succeeds; usage errors, unmatched and unknown commands send nothing and change nothing; "stop" sends one stop; "play" has exactly the effect `PlayOutcome` gives on the actions sent and the players started; a volume command has exactly the effect `VolOutcome` gives on the actions sent and the `volume` file |
| RadioCgi.Controls | main.c:22-32 | there are five controls; each command is "stop", "volu" or "vold"; "stop" alone has a NULL argument, and the volume arguments are "1" or "3" |
| RadioCgi.IsControlIndex | main.c:178-195 | the result is -1 or an index below the number of controls; it is -1 for NULL, for the empty string and for a C string ending in a non-digit; it is not -1 exactly when `strtoul` consumes the whole C string (up to its NUL) and converts it to a value below 5, and then it is that value |
| RadioCgi.IsControlIndexStopsAtNul | main.c:186-187 | only the characters before the first NUL are read |
| RadioCgi.IsControlIndexSpaceAndSign | main.c:186 | whitespace and an optional '+' before a digit string select the same control as the digits alone |
| RadioCgi.IsControlIndexOfDigits | main.c:184-192 | a plain digit string gives its value when that is below 5, and -1 otherwise |
| RadioCgi.Basename | main.c:242 | GNU `basename` returns a suffix of the name with no '/', starting just after the last '/' |
| RadioCgi.PlsPathShape | main.c:237-249 | the path is "/srv/ftp/radio/", then a '/'-free last component of the name, then ".pls" |
| RadioCgi.PlsPathOfPlainName | main.c:242 | a name without '/' is used whole |
| RadioCgi.PlsPath | main.c:237-249 | the playlist directory, '/', the name's basename and ".pls"; its properties are `PlsPathShape` and `PlsPathOfPlainName` |
| RadioCgi.StrCaseStr | main.c:280 | the result is the first position where "file" occurs in any letter case, or none when it nowhere occurs |
| RadioCgi.StrChrNul | main.c:284-286 | the result is the first position from the start index holding the character, or the end of the string |
| RadioCgi.PlsUrl | main.c:277-293 | the URL rule of a playlist's contents; its properties are `PlsUrlValue` and `PlsUrlNone` |
| RadioCgi.PlsUrlValue | main.c:277-293 | a URL found is non-empty, holds no newline, and is the rest of the line after the first '=' that follows the first "file" on that line |
| RadioCgi.PlsUrlNone | main.c:280-292 | no URL exactly when there is no "file", or no '=' after it on its line except as the line's last character |
| RadioCgi.LineLength | main.c:204 | `fgets` takes at most size − 1 characters, stops after the first newline, and takes at least one character when input remains |
| RadioCgi.PostedLineShort | main.c:200-204 | the buffer yields a line of at most 11 characters, so at most 3 characters follow "control=" |
| RadioCgi.PostedLine | main.c:204-215 | the line classified: what `fgets` reads into the 12-character buffer, chomped |
| RadioCgi.PostedIndex | main.c:217-225 | -1 or a control index: the index after "control=", or -1 for any other line |
| RadioCgi.PostedRuns | main.c:197-235 | at most one run, none exactly on a read error or an invalid line, and its command is "stop", "volu" or "vold" |
| RadioCgi.Cgi.SendToPlayer | main.c:149-176 | a NULL or empty command runs nothing and fails; otherwise exactly one run of the controller, whose exit status is the result |
| RadioCgi.Cgi.FGets | main.c:204-213 | fails on a read error or at end of input; otherwise the buffer holds the next line and a NUL, and that line is consumed |
| RadioCgi.Cgi.ProcessPostControls | main.c:197-235 | returns 0 exactly when no line was read and there was no error; a read error, a chomped line not starting with "control=", or an invalid index gives -1 and runs nothing; a valid index runs exactly that control, and the result is 1 exactly when the run succeeds; "station_recent" never changes |
| RadioCgi.Cgi.UrlFromPls | main.c:268-299 | a NULL or empty path, no read, and no URL; an unreadable file gives no URL; otherwise the URL the playlist rule gives, computed on the buffer after the line was cut with a NUL |
| RadioCgi.Cgi.CutAt | main.c:285 | writing the NUL cuts the C string at that position and leaves the characters before it |
| RadioCgi.Cgi.SaveLastPlayed | main.c:251-266 | "station_recent" is overwritten with the name exactly when it can be opened |
| RadioCgi.Cgi.QueryOutcome | main.c:301-330 | the effect of `_process_query_string`: nothing and 0 for an absent or empty query or a station without a URL; otherwise one "play" run with the URL, 1 exactly when it succeeds, and the query saved to "station_recent" only then (when it can be opened) |
| RadioCgi.Cgi.ProcessQueryString | main.c:301-330 | an absent or empty query, or a station without a URL, returns 0 and changes nothing; otherwise exactly one "play" run with the URL; "station_recent" is set to the raw query only when that run succeeds |
| RadioCgi.Cgi.HandleRequest | main.c:382-386 | a posted line, even an invalid one or a read error, means the query string is ignored: no "play" run and no change to "station_recent"; the runs made are exactly `PostedRuns`, the selected control's; with nothing posted, the query string is processed |

## Left out

- Process control: `fork`, `execl` and `waitpid` are replaced by their outcomes.
  - `_omx_is_running` and a player `fork` become parameters.
  - `dbus-send` exit statuses come from `Omx.replies`.
  - Controller exit statuses come from `Cgi.outcomes`.
  - A `fork` failure in `_omx_action` or `_send_to_player` counts as a failed reply. It is still listed among the runs attempted.
- OmxCtl.Omx.Run: does not model the call to `_init`. It only sets environment variables that the `dbus-send` child reads. `_init` itself is `OmxCtl.Init`.
- OmxCtl.Init: returns the two values instead of calling `setenv`. A failing `setenv` is not modelled.
- Integer widths: `int` and `size_t` are unbounded here.
  - The model has no `size_t` overflow in `astrcat`'s sizes.
  - The model has no signed overflow of `new_vol` in `_omx_vol`. In C that overflow is undefined behaviour; it happens when the stored volume is within 300·k of INT_MAX or INT_MIN, and `atoi` of out-of-range text is already undefined.
  - The step count's `unsigned int` conversion is modelled explicitly, modulo 2^32.
- Decimal.Atoi: a simplified parse of leading whitespace, an optional sign and digits. The `int` range is not modelled.
- Undefined behaviour in omxctl's `main` is excluded by the `Defined` precondition:
  - a direction left uninitialised when the fourth letter is neither 'u' nor 'd';
  - `atoi(NULL)` when the argument is missing.
- Allocation failures: `realloc` failures in `astrcat` are modelled by `grants`.
  - `malloc` in `_get_file_contents` and `strdup` in `_url_from_pls` are assumed to succeed.
  - `asprintf` in `_pls_path_from_basename` is assumed to succeed. Its check is written `(! asprintf (...)) > 0`, which never catches a failure.
- RadioCgi.Cgi.FGets: a read error makes `fgets` fail at once. Characters read before an error are not modelled.
- RadioCgi.Cgi.SaveLastPlayed: `fputs` fails only when the file cannot be opened. A failing `fputs` on an open file is not modelled. `_process_query_string` ignores the result anyway.
- OmxCtl.Omx.Vol: a failing `fprintf` on an opened `volume` file is not modelled.
- CString.Chomp: the C code returns one before the start of the string when everything is trimmed. That pointer is outside the object. The model returns offset -1. Only `_print_info` (main.c:358, 362) tests the result, and that function is HTML rendering, which is left out.
- HTML output: `_print_controls`, `_print_info`, `_print_radio_playlists`, the `puts` calls in `main` and the `_ERR_MSG` diagnostics are rendering. `_print_radio_playlists` also has undefined behaviour when the station list lacks a final newline.
- Characters are Dafny `char`s. `isspace` and the case folding of `strcasestr` follow the C locale and are ASCII only.
