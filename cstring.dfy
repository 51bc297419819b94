/**
 * C strings as both source files use them: a character buffer whose
 * contents end at the first NUL, the `isspace` test of the C locale, the
 * in-place `_chomp` that both files define identically, and the buffer
 * that `_get_file_contents` returns.
 */
module CString {
  import opened Wrappers

  /** `isspace` in the C locale: space, tab, newline, vertical tab, form feed, carriage return. */
  predicate IsSpace(c: char) {
    c == ' ' || '\t' <= c <= '\r'
  }

  /** `strlen`: the index of the first NUL in `buf`, or `|buf|` when there is none. */
  function StrLen(buf: seq<char>): (n: nat)
    ensures n <= |buf|
    ensures forall k :: 0 <= k < n ==> buf[k] != '\0'
    ensures n < |buf| ==> buf[n] == '\0'
  {
    if buf == [] || buf[0] == '\0' then 0 else 1 + StrLen(buf[1..])
  }

  /** A buffer that holds a NUL holds a C string shorter than the buffer. */
  lemma {:induction false} StrLenOfTerminated(buf: seq<char>)
    requires '\0' in buf
    ensures StrLen(buf) < |buf|
  {
    if buf[0] != '\0' {
      StrLenOfTerminated(buf[1..]);
    }
  }

  /** The string a C program sees in `buf`: everything before the first NUL. */
  function CStr(buf: seq<char>): seq<char> {
    buf[..StrLen(buf)]
  }

  /** A buffer holding `s` followed by a NUL shows the same C string as `s` itself. */
  lemma CStrTerminated(buf: seq<char>, s: seq<char>)
    requires |s| < |buf| && buf[..|s|] == s && buf[|s|] == '\0'
    ensures CStr(buf) == CStr(s)
  {
    var n, m := StrLen(buf), StrLen(s);
    if m < |s| {
      assert buf[m] == s[m];
    }
    assert forall k :: 0 <= k < |s| ==> buf[k] == s[k];
    assert n == m;
  }

  /** A string with no NUL in it is its own C string. */
  lemma CStrOfPlain(s: seq<char>)
    requires '\0' !in s
    ensures CStr(s) == s
  {
  }

  /** `s` with its longest suffix of whitespace removed. */
  function TrimRight(s: seq<char>): seq<char> {
    if s != [] && IsSpace(s[|s| - 1]) then TrimRight(s[..|s| - 1]) else s
  }

  /**
   * TrimRight(s) is a prefix of s, everything it drops is whitespace, and
   * it does not itself end in whitespace.
   */
  lemma {:induction false} TrimRightSplit(s: seq<char>)
    ensures |TrimRight(s)| <= |s| && s[..|TrimRight(s)|] == TrimRight(s)
    ensures forall k :: |TrimRight(s)| <= k < |s| ==> IsSpace(s[k])
    ensures TrimRight(s) == [] || !IsSpace(TrimRight(s)[|TrimRight(s)| - 1])
  {
    if s != [] && IsSpace(s[|s| - 1]) {
      var p := s[..|s| - 1];
      TrimRightSplit(p);
      assert s[..|TrimRight(p)|] == p[..|TrimRight(p)|];
    }
  }

  /**
   * The decomposition is unique: if `s` is `p` followed by whitespace and `p`
   * does not end in whitespace, TrimRight(s) is exactly `p`. So what is
   * removed is the longest whitespace suffix, and nothing before it changes.
   */
  lemma {:induction false} TrimRightUnique(p: seq<char>, w: seq<char>)
    requires forall k :: 0 <= k < |w| ==> IsSpace(w[k])
    requires p == [] || !IsSpace(p[|p| - 1])
    ensures TrimRight(p + w) == p
  {
    if w == [] {
      assert p + w == p;
    } else {
      var w' := w[..|w| - 1];
      assert (p + w)[..|p + w| - 1] == p + w';
      TrimRightUnique(p, w');
    }
  }

  /** Chomping twice gives the same as chomping once. */
  lemma TrimRightIdempotent(s: seq<char>)
    ensures TrimRight(TrimRight(s)) == TrimRight(s)
  {
    TrimRightSplit(s);
    TrimRightUnique(TrimRight(s), []);
    assert TrimRight(s) + [] == TrimRight(s);
  }

  /** A C pointer result: NULL, or a position relative to the start of the string (possibly -1). */
  datatype Ptr = Null | At(offset: int)

  /**
   * `_chomp`: walks to the terminating NUL, then backwards over the string
   * overwriting each trailing whitespace character with NUL, stopping at the
   * first other character. It returns NULL for NULL, and otherwise a pointer
   * to the last character kept (one before the start when nothing is kept).
   */
  method Chomp(str: array?<char>) returns (p: Ptr)
    requires str != null ==> '\0' in str[..]
    modifies str
    ensures str == null ==> p == Null
    ensures str != null ==>
              var n := StrLen(old(str[..]));
              var m := |TrimRight(old(str[..])[..n])|;
              && m <= n
              && p == At(m - 1)
              && (forall k :: 0 <= k < str.Length ==>
                    str[k] == if m <= k < n then '\0' else old(str[k]))
    ensures str != null ==> CStr(str[..]) == TrimRight(CStr(old(str[..])))
  {
    if str == null {
      return Null;
    }
    ghost var s0 := str[..];
    ghost var n := StrLen(s0);
    StrLenOfTerminated(s0);
    var i := 0;
    while str[i] != '\0'
      invariant 0 <= i <= n
      decreases n - i
    {
      assert s0[i] == str[i];
      i := i + 1;
    }
    assert s0[i] == str[i];
    assert i == n;
    while i > 0 && IsSpace(str[i - 1])
      invariant 0 <= i <= n
      invariant TrimRight(s0[..n]) == TrimRight(s0[..i])
      invariant forall k :: 0 <= k < str.Length ==> str[k] == if i <= k < n then '\0' else s0[k]
      decreases i
    {
      assert s0[..i][..i - 1] == s0[..i - 1];
      str[i - 1] := '\0';
      i := i - 1;
    }
    assert i > 0 ==> !IsSpace(s0[..i][i - 1]);
    assert TrimRight(s0[..n]) == s0[..i];
    p := At(i - 1);
    assert str[..i] == s0[..i];
    CStrTerminatedAt(str[..], i);
  }

  /** A buffer whose first `i` characters are not NUL and whose `i`th is NUL holds a C string of length `i`. */
  lemma CStrTerminatedAt(buf: seq<char>, i: nat)
    requires i < |buf| && buf[i] == '\0' && '\0' !in buf[..i]
    ensures CStr(buf) == buf[..i]
  {
  }

  /** The readable files, by path, and their contents. */
  type FileSystem = map<string, string>

  /**
   * `_get_file_contents`: NULL for a NULL path or a file that cannot be
   * read; otherwise a fresh buffer of the file's size plus one, holding its
   * bytes followed by a NUL.
   */
  method GetFileContents(fs: FileSystem, path: Option<string>) returns (buf: array?<char>)
    ensures path.None? || path.value !in fs ==> buf == null
    ensures path.Some? && path.value in fs ==>
              buf != null && fresh(buf) && buf[..] == fs[path.value] + ['\0']
  {
    if path.None? || path.value !in fs {
      return null;
    }
    var contents := fs[path.value];
    buf := new char[|contents| + 1];
    forall k | 0 <= k < |contents| {
      buf[k] := contents[k];
    }
    buf[|contents|] := '\0';
  }
}
