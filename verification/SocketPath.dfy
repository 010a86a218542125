/** Socket paths: what fits into sockaddr_un.sun_path and which name the kernel sees in it. */
module SocketPaths {
  import opened Basics

  const SUN_PATH_SIZE := 108

  /** The resize every class applies to a path before using it. */
  function Truncate(path: Bytes): Bytes {
    if |path| >= SUN_PATH_SIZE then path[..SUN_PATH_SIZE] else path
  }

  /** A std::string as a C string: up to its first NUL. */
  function CString(path: Bytes): Bytes {
    Before(path, NUL)
  }

  /** strncpy into the zeroed sun_path. */
  function SunPath(path: Bytes): (r: Bytes)
    ensures |r| == SUN_PATH_SIZE
  {
    var c := CString(Truncate(path));
    c + seq(SUN_PATH_SIZE - |c|, _ => NUL)
  }

  /** The file name the kernel reads from sun_path; empty for Linux's abstract addresses. */
  function KernelName(sunPath: Bytes): Bytes {
    Before(sunPath, NUL)
  }

  function Name(path: Bytes): Bytes {
    CString(Truncate(path))
  }

  lemma {:induction false} BeforeOfFree(x: Bytes, y: Bytes, d: byte)
    requires d !in x && (y == [] || y[0] == d)
    ensures Before(x + y, d) == x
    decreases |x|
  {
    if x == [] {
      assert x + y == y;
    } else {
      assert (x + y)[1..] == x[1..] + y;
      BeforeOfFree(x[1..], y, d);
    }
  }

  /** The name the kernel finds in the address is the name remove() gets from the stored path. */
  lemma KernelSeesName(path: Bytes)
    ensures KernelName(SunPath(path)) == Name(path) == CString(Truncate(path))
  {
    var c := CString(Truncate(path));
    BeforeOfFree(c, seq(SUN_PATH_SIZE - |c|, _ => NUL), NUL);
  }

  /**
   * Truncation is idempotent, so the path bind() returns names what the original path names; and
   * two paths make the same address exactly when they agree after truncation and the cut at NUL.
   */
  lemma SamePathSameAddress(p: Bytes, q: Bytes)
    ensures Truncate(Truncate(p)) == Truncate(p)
    ensures Name(Truncate(p)) == Name(p)
    ensures SunPath(p) == SunPath(q) <==> Name(p) == Name(q)
  {
    KernelSeesName(p);
    KernelSeesName(q);
  }

  /** A path is used up to its first SUN_PATH_SIZE bytes, and all of it when it is no longer than that. */
  lemma TruncateKeepsPrefix(path: Bytes)
    ensures Truncate(path) == path[..Min(|path|, SUN_PATH_SIZE)] && Truncate(path) <= path
    ensures Name(path) <= path && |Name(path)| <= SUN_PATH_SIZE
    ensures |Name(path)| < Min(|path|, SUN_PATH_SIZE) ==> path[|Name(path)|] == NUL
  {
  }

  lemma {:induction false} BeforeAll(x: Bytes, d: byte)
    requires d !in x
    ensures Before(x, d) == x
  {
    BeforeOfFree(x, [], d);
    assert x + [] == x;
  }

  /** Byte for byte, the address holds the path up to its first NUL or its 108th byte, and NULs behind it. */
  lemma SunPathBytes(path: Bytes)
    ensures forall i :: 0 <= i < SUN_PATH_SIZE ==>
      SunPath(path)[i] == if i < |Name(path)| then path[i] else NUL
  {
    TruncateKeepsPrefix(path);
  }

  /** A path without NUL that fits is its own name, so two such paths make one address only when they are equal. */
  lemma FittingPathsDiffer(p: Bytes, q: Bytes)
    requires NUL !in p && |p| <= SUN_PATH_SIZE && NUL !in q && |q| <= SUN_PATH_SIZE
    ensures Name(p) == p
    ensures SunPath(p) == SunPath(q) <==> p == q
  {
    BeforeAll(p, NUL);
    BeforeAll(q, NUL);
    TruncateKeepsPrefix(p);
    TruncateKeepsPrefix(q);
    SamePathSameAddress(p, q);
  }

  lemma AddressOfTruncated(path: Bytes)
    ensures KernelName(SunPath(Truncate(path))) == Name(path) == CString(Truncate(path))
  {
    KernelSeesName(Truncate(path));
    SamePathSameAddress(path, path);
  }
}
