/**
 * `astrcat` of omxctl.c: concatenation of a NULL-terminated list of C
 * strings into a buffer grown with `realloc`.
 */
module AStrCat {
  import opened Wrappers
  import opened CString

  /** How much more than needed each growth step of `astrcat` asks for. */
  const MemInc: nat := 1024

  /** The in-order concatenation of the arguments from the `from`-th up to the first NULL. */
  function Joined(args: seq<Option<string>>, from: nat := 0): string
    decreases |args| - from
  {
    if from >= |args| || args[from].None? then [] else args[from].value + Joined(args, from + 1)
  }

  /** The sum of the lengths of the arguments before the first NULL. */
  function TotalLength(args: seq<Option<string>>, from: nat := 0): nat
    decreases |args| - from
  {
    if from >= |args| || args[from].None? then 0 else |args[from].value| + TotalLength(args, from + 1)
  }

  /** The concatenation is as long as its parts together. */
  lemma {:induction false} JoinedLength(args: seq<Option<string>>, from: nat := 0)
    ensures |Joined(args, from)| == TotalLength(args, from)
    decreases |args| - from
  {
    if from < |args| && args[from].Some? {
      JoinedLength(args, from + 1);
    }
  }

  /** Concatenating C strings gives a C string. */
  lemma {:induction false} JoinedNoNul(args: seq<Option<string>>, from: nat := 0)
    requires forall i :: 0 <= i < |args| && args[i].Some? ==> '\0' !in args[i].value
    ensures '\0' !in Joined(args, from)
    decreases |args| - from
  {
    if from < |args| && args[from].Some? {
      JoinedNoNul(args, from + 1);
    }
  }

  /**
   * How many growth steps `astrcat` takes over the arguments from the
   * `from`-th on, starting with a buffer of `size` characters of which `len`
   * are used: one each time `len + s_len + 1` exceeds the size, which then
   * becomes `size + MemInc + s_len`.
   */
  function Growths(args: seq<Option<string>>, from: nat := 0, size: nat := 0, len: nat := 0): nat
    decreases |args| - from
  {
    if from >= |args| || args[from].None? then 0
    else
      var n := |args[from].value|;
      if len + n + 1 > size then 1 + Growths(args, from + 1, size + MemInc + n, len + n)
      else Growths(args, from + 1, size, len + n)
  }

  /** A single argument takes exactly one growth step, whatever its length. */
  lemma GrowthsOfOneArg(s: string)
    ensures Growths([Some(s), None]) == 1
  {
  }

  /** Whether the `k`th `realloc` call succeeds; calls beyond `grants` succeed. */
  predicate Granted(grants: seq<bool>, k: nat) {
    k >= |grants| || grants[k]
  }

  predicate AllGranted(grants: seq<bool>) {
    forall k :: 0 <= k < |grants| ==> grants[k]
  }

  /**
   * `realloc(p, size)`: on success a fresh block of `size` characters that
   * starts with the old block's contents (as far as both reach); on failure
   * NULL.
   */
  method Realloc(p: array?<char>, size: nat, ok: bool) returns (q: array?<char>)
    ensures !ok ==> q == null
    ensures ok ==> q != null && fresh(q) && q.Length == size
    ensures ok && p != null ==>
              forall k :: 0 <= k < size && k < p.Length ==> q[k] == p[k]
  {
    if !ok {
      return null;
    }
    q := new char[size];
    if p != null {
      forall k | 0 <= k < size && k < p.Length {
        q[k] := p[k];
      }
    }
  }

  /** `memcpy(dst + at, src, |src|)`. */
  method MemCpy(dst: array<char>, at: nat, src: seq<char>)
    requires at + |src| <= dst.Length
    modifies dst
    ensures dst[..at + |src|] == old(dst[..at]) + src
    ensures dst[at + |src|..] == old(dst[at + |src|..])
  {
    forall k | 0 <= k < |src| {
      dst[at + k] := src[k];
    }
  }

  /**
   * `astrcat(str, ...)`: `args` is the argument list including its NULL
   * terminator; `grants` says which `realloc` calls succeed. NULL when the
   * first argument is NULL or a growth step fails (the first pass always
   * grows the empty buffer): NULL exactly when one of the `Growths(args)`
   * growth calls fails, so a failed final shrink, the next call, keeps the
   * buffer. Otherwise a buffer whose C string is the concatenation, its terminating
   * NUL inside the buffer.
   */
  method AstrCat(args: seq<Option<string>>, grants: seq<bool>) returns (dest: array?<char>)
    requires None in args
    requires forall i :: 0 <= i < |args| && args[i].Some? ==> '\0' !in args[i].value
    ensures args[0].None? ==> dest == null
    ensures dest != null ==>
              && |Joined(args)| < dest.Length
              && dest[..|Joined(args)|] == Joined(args)
              && dest[|Joined(args)|] == '\0'
              && CStr(dest[..]) == Joined(args)
    ensures args[0].Some? && AllGranted(grants) ==> dest != null
    ensures args[0].Some? && !Granted(grants, 0) ==> dest == null
    ensures args[0].Some? ==>
              (dest == null <==> exists k :: 0 <= k < Growths(args) && !Granted(grants, k))
  {
    if args[0].None? {
      return null;
    }
    var len, calls;
    dest, len, calls := Gather(args, grants);
    if dest == null {
      assert !Granted(grants, calls - 1);
      return null;
    }
    JoinedNoNul(args);
    dest := Terminate(dest, len, Granted(grants, calls));
  }

  /**
   * The loop of `astrcat`: copies the arguments before the NULL into a
   * buffer grown as needed, `calls` being the number of `realloc` calls
   * made. It stops with NULL when one of them fails, that call being the
   * last; otherwise all `Growths(args)` calls succeeded.
   */
  method Gather(args: seq<Option<string>>, grants: seq<bool>)
    returns (dest: array?<char>, len: nat, calls: nat)
    requires None in args && args[0].Some?
    ensures dest == null ==> 0 < calls <= Growths(args) && !Granted(grants, calls - 1)
    ensures dest == null ==> forall k :: 0 <= k < calls - 1 ==> Granted(grants, k)
    ensures dest != null ==>
              && fresh(dest) && len < dest.Length && dest[..len] == Joined(args)
              && calls == Growths(args) && forall k :: 0 <= k < calls ==> Granted(grants, k)
  {
    dest := null;
    var size: nat := 0;
    len := 0;
    calls := 0;
    var i := 0;
    ghost var done: string := [];
    ghost var end :| 0 <= end < |args| && args[end].None?;
    assert Growths(args) >= 1;
    while args[i].Some?
      invariant 0 <= i <= end
      invariant dest == null ==> size == 0 && len == 0 && i == 0 && calls == 0
      invariant dest != null ==> fresh(dest) && dest.Length == size && len < size
      invariant dest != null ==> dest[..len] == done
      invariant |done| == len
      invariant Joined(args) == done + Joined(args, i)
      invariant calls + Growths(args, i, size, len) == Growths(args)
      invariant forall k :: 0 <= k < calls ==> Granted(grants, k)
      decreases end - i
    {
      var s := args[i].value;
      ghost var size0 := size;
      var grew;
      dest, size, grew := Append(dest, size, len, s, Granted(grants, calls), done);
      if grew {
        calls := calls + 1;
      }
      if dest == null {
        return;
      }
      GatherStep(args, i, done, size0, size, len, grew);
      done := done + s;
      len := len + |s|;
      i := i + 1;
    }
  }

  /** What one pass of the loop of `Gather` adds to the concatenation and to the growth count. */
  lemma GatherStep(args: seq<Option<string>>, i: nat, done: string, size0: nat, size: nat, len: nat, grew: bool)
    requires i < |args| && args[i].Some?
    requires Joined(args) == done + Joined(args, i)
    requires grew <==> len + |args[i].value| + 1 > size0
    requires size == if grew then size0 + MemInc + |args[i].value| else size0
    ensures Joined(args) == (done + args[i].value) + Joined(args, i + 1)
    ensures Growths(args, i, size0, len) == (if grew then 1 else 0) + Growths(args, i + 1, size, len + |args[i].value|)
  {
  }

  /**
   * The growth step of `astrcat`: when `len + more + 1` characters do not fit
   * in `size`, `realloc` to `size + MemInc + more` (`grew`). The result is
   * NULL only when that `realloc` fails.
   */
  method Reserve(dest: array?<char>, size: nat, len: nat, more: nat, ok: bool)
    returns (p: array?<char>, newSize: nat, grew: bool)
    requires dest == null ==> size == 0 && len == 0
    requires dest != null ==> dest.Length == size && len < size
    ensures grew <==> len + more + 1 > size
    ensures !grew ==> p == dest && newSize == size
    ensures grew ==> newSize == size + MemInc + more && (p == null <==> !ok)
    ensures p != null ==> p.Length == newSize && len + more + 1 <= newSize
    ensures grew && p != null ==> fresh(p) && (dest != null ==> p[..len] == dest[..len])
  {
    p, newSize, grew := dest, size, false;
    if len + more + 1 > size {
      newSize := size + MemInc + more;
      p := Realloc(dest, newSize, ok);
      grew := true;
    }
  }

  /**
   * One pass of the `astrcat` loop: grows the buffer when needed, then copies
   * `s` after the `len` characters kept (`kept`). The result is NULL only
   * when the growth step's `realloc` fails.
   */
  method Append(dest: array?<char>, size: nat, len: nat, s: string, ok: bool, ghost kept: string)
    returns (p: array?<char>, newSize: nat, grew: bool)
    requires dest == null ==> size == 0 && len == 0 && kept == []
    requires dest != null ==> dest.Length == size && len < size && dest[..len] == kept
    modifies dest
    ensures grew <==> len + |s| + 1 > size
    ensures !grew ==> p == dest && newSize == size
    ensures grew ==> newSize == size + MemInc + |s| && (p == null <==> !ok)
    ensures p != null ==> p.Length == newSize && len + |s| < newSize && p[..len + |s|] == kept + s
    ensures grew && p != null ==> fresh(p)
  {
    p, newSize, grew := Reserve(dest, size, len, |s|, ok);
    if p != null {
      assert p[..len] == kept;
      MemCpy(p, len, s);
    }
  }

  /**
   * The end of `astrcat`: writes the terminating NUL after the `len`
   * characters kept and gives back unused memory with `realloc`, keeping the
   * old buffer when that fails.
   */
  method Terminate(dest: array<char>, len: nat, ok: bool) returns (p: array<char>)
    requires len < dest.Length && '\0' !in dest[..len]
    modifies dest
    ensures |p[..]| > len && p[..len] == old(dest[..len]) && p[len] == '\0'
    ensures CStr(p[..]) == old(dest[..len])
  {
    ghost var kept := dest[..len];
    dest[len] := '\0';
    assert dest[..len] == kept;
    var q := Realloc(dest, len + 1, ok);
    p := if q != null then q else dest;
    assert p[..len] == kept;
    CStrTerminatedAt(p[..], len);
  }
}
