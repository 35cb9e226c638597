/**
 * The Go standard-library string helpers that the generator relies on:
 * strings.Join, strings.TrimPrefix, strings.TrimSuffix and filepath.Ext.
 * Paths use '/' as their only separator, as Go does on Unix.
 */
module GoStrings {
  import opened Wrappers

  const PathSeparator: char := '/'

  /** s ends with suffix (strings.HasSuffix). */
  predicate HasSuffix(s: string, suffix: string)
  {
    |suffix| <= |s| && s[|s| - |suffix|..] == suffix
  }

  /** strings.TrimPrefix: removes one leading copy of prefix, if s starts with it. */
  function TrimPrefix(s: string, prefix: string): (r: string)
    ensures prefix <= s ==> prefix + r == s
    ensures !(prefix <= s) ==> r == s
  {
    if prefix <= s then s[|prefix|..] else s
  }

  /** strings.TrimSuffix: removes one trailing copy of suffix, if s ends with it. */
  function TrimSuffix(s: string, suffix: string): (r: string)
    ensures HasSuffix(s, suffix) ==> r + suffix == s
    ensures !HasSuffix(s, suffix) ==> r == s
  {
    if HasSuffix(s, suffix) then s[..|s| - |suffix|] else s
  }

  /** strings.Join: the elements with sep between consecutive ones. */
  function Join(elems: seq<string>, sep: string): string
  {
    if |elems| == 0 then ""
    else if |elems| == 1 then elems[0]
    else elems[0] + sep + Join(elems[1..], sep)
  }

  /** Joining one more element appends the separator and that element. */
  lemma {:induction false} JoinSnoc(elems: seq<string>, last: string, sep: string)
    ensures Join(elems + [last], sep) == if elems == [] then last else Join(elems, sep) + sep + last
  {
    if |elems| == 0 {
      assert elems + [last] == [last];
    } else if |elems| == 1 {
      assert elems + [last] == [elems[0], last];
      assert [elems[0], last][1..] == [last];
    } else {
      assert (elems + [last])[1..] == elems[1..] + [last];
      JoinSnoc(elems[1..], last, sep);
    }
  }

  /** Index where the final element of path[..n] begins: just past its last separator, or 0. */
  function ElementStart(path: string, n: nat): (r: nat)
    requires n <= |path|
    ensures r <= n
    ensures r > 0 ==> path[r - 1] == PathSeparator
    ensures forall k :: r <= k < n ==> path[k] != PathSeparator
  {
    if n == 0 then 0
    else if path[n - 1] == PathSeparator then n
    else ElementStart(path, n - 1)
  }

  /**
   * The backward scan of filepath.Ext over path[..n]: it stops at the first
   * separator and yields the index of the last '.' it met before, if any.
   */
  function DotScan(path: string, n: nat): (r: Option<nat>)
    requires n <= |path|
    ensures r.Some? ==> ElementStart(path, n) <= r.value < n && path[r.value] == '.'
    ensures r.Some? ==> forall k :: r.value < k < n ==> path[k] != '.'
    ensures r.None? ==> forall k :: ElementStart(path, n) <= k < n ==> path[k] != '.'
  {
    if n == 0 || path[n - 1] == PathSeparator then None
    else if path[n - 1] == '.' then Some(n - 1)
    else DotScan(path, n - 1)
  }

  /** The final element of path has no '.', so it has no extension. */
  predicate NoExtension(path: string)
  {
    forall k :: ElementStart(path, |path|) <= k < |path| ==> path[k] != '.'
  }

  /**
   * filepath.Ext: the suffix of path that starts at the last '.' of its final
   * element, or "" when that element has no '.'.
   */
  function Ext(path: string): (e: string)
    ensures HasSuffix(path, e)
    ensures e == "" <==> NoExtension(path)
    ensures e != "" ==> e[0] == '.'
    ensures forall k :: 0 < k < |e| ==> e[k] != '.' && e[k] != PathSeparator
  {
    match DotScan(path, |path|)
    case Some(i) => path[i..]
    case None => ""
  }

  /** Once the scan has passed a '.' followed only by ordinary characters, it reports that '.'. */
  lemma {:induction false} DotScanFindsLastDot(path: string, dot: nat, n: nat)
    requires dot < n <= |path| && path[dot] == '.'
    requires forall k :: dot < k < |path| ==> path[k] != '.' && path[k] != PathSeparator
    ensures DotScan(path, n) == Some(dot)
    decreases n
  {
    if n - 1 != dot {
      DotScanFindsLastDot(path, dot, n - 1);
    }
  }
}
