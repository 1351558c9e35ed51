/**
 * `urljoin(*args)`: every argument, with a missing or empty one read as "",
 * stripped of leading and trailing slashes, joined with single slashes.
 */
module Url {
  import opened Wrappers

  /** `s.lstrip('/')`: the suffix left after dropping the leading slashes. */
  function TrimStart(s: string): (r: string)
    ensures |r| <= |s| && r == s[|s| - |r|..]
    ensures forall i :: 0 <= i < |s| - |r| ==> s[i] == '/'
    ensures r == [] || r[0] != '/'
  {
    if s != [] && s[0] == '/' then TrimStart(s[1..]) else s
  }

  /** `s.rstrip('/')`: the prefix left after dropping the trailing slashes. */
  function TrimEnd(s: string): (r: string)
    ensures |r| <= |s| && r == s[..|r|]
    ensures forall i :: |r| <= i < |s| ==> s[i] == '/'
    ensures r == [] || r[|r| - 1] != '/'
  {
    if s != [] && s[|s| - 1] == '/' then TrimEnd(s[..|s| - 1]) else s
  }

  /** `s.strip('/')`. */
  function Strip(s: string): string {
    TrimEnd(TrimStart(s))
  }

  /** `sep.join(parts)` with `sep` a single slash. */
  function Join(parts: seq<string>): string {
    if |parts| == 0 then ""
    else if |parts| == 1 then parts[0]
    else parts[0] + "/" + Join(parts[1..])
  }

  /** `str(a or '').strip('/')` for every argument. */
  function StripAll(args: seq<Option<string>>): seq<string> {
    seq(|args|, k requires 0 <= k < |args| => Strip(args[k].GetOr("")))
  }

  function UrlJoin(args: seq<Option<string>>): string {
    Join(StripAll(args))
  }

  /** `s.split('/')`. */
  function Split(s: string): (r: seq<string>)
    ensures |r| >= 1
  {
    if s == [] then [""]
    else
      var rest := Split(s[1..]);
      if s[0] == '/' then [""] + rest else [[s[0]] + rest[0]] + rest[1..]
  }

  /** Stripping twice strips nothing more. */
  lemma StripIdempotent(s: string)
    ensures Strip(Strip(s)) == Strip(s)
  {
    var t := TrimStart(s);
    var u := TrimEnd(t);
    if u != [] {
      assert u[0] == t[0];
      assert TrimStart(u) == u;
    }
  }

  /** A stripped argument neither starts nor ends with a slash. */
  lemma StripHasNoOuterSlash(s: string)
    ensures var r := Strip(s); r == [] || (r[0] != '/' && r[|r| - 1] != '/')
  {
    var t := TrimStart(s);
    var u := TrimEnd(t);
    if u != [] {
      assert u[0] == t[0];
    }
  }

  /** Splitting a slash-free prefix glued to the rest. */
  lemma {:induction false} SplitSlashFreePrefix(p: string, rest: string)
    requires '/' !in p
    ensures Split(p + rest) == [p + Split(rest)[0]] + Split(rest)[1..]
    decreases |p|
  {
    if p != [] {
      assert (p + rest)[1..] == p[1..] + rest;
      assert p[0] in p;
      SplitSlashFreePrefix(p[1..], rest);
      assert [p[0]] + (p[1..] + Split(rest)[0]) == p + Split(rest)[0];
    } else {
      assert p + rest == rest;
      var r := Split(rest);
      assert p + r[0] == r[0];
      assert r == [r[0]] + r[1..];
    }
  }

  /** Splitting undoes joining when no part contains a slash. */
  lemma {:induction false} SplitJoin(parts: seq<string>)
    requires |parts| >= 1
    requires forall k :: 0 <= k < |parts| ==> '/' !in parts[k]
    ensures Split(Join(parts)) == parts
    decreases |parts|
  {
    if |parts| == 1 {
      SplitSlashFreePrefix(parts[0], "");
      assert parts[0] + "" == parts[0];
    } else {
      var tail := Join(parts[1..]);
      SplitJoin(parts[1..]);
      assert parts[0] + "/" + tail == parts[0] + ("/" + tail);
      SplitSlashFreePrefix(parts[0], "/" + tail);
      assert ("/" + tail)[1..] == tail;
      assert parts[0] + "" == parts[0];
    }
  }

  /**
   * `urljoin` keeps every argument as one path segment: splitting the
   * result on slashes gives back the stripped arguments, provided none of
   * them has a slash inside it.
   */
  lemma UrlJoinSegments(args: seq<Option<string>>)
    requires |args| >= 1
    requires forall k :: 0 <= k < |args| ==> '/' !in Strip(args[k].GetOr(""))
    ensures Split(UrlJoin(args)) == StripAll(args)
  {
    var parts := StripAll(args);
    assert forall k :: 0 <= k < |parts| ==> '/' !in parts[k];
    SplitJoin(parts);
  }
}
