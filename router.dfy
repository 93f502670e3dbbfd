/** The hash router: `#page/param/sub` locations are parsed into a route,
    and navigating to a page writes `#page`. */
module Router {
  import opened Common

  datatype Route = Route(page: string, param: Option<string>, sub: Option<string>)

  /** Position of the first occurrence of `c` in `s`. */
  function FirstIndex(s: string, c: char): (i: nat)
    requires c in s
    ensures i < |s| && s[i] == c && c !in s[..i]
  {
    if s[0] == c then 0 else 1 + FirstIndex(s[1..], c)
  }

  /** `String.prototype.replace` with a one-character string pattern: only
      the first occurrence is removed. */
  function RemoveFirst(s: string, c: char): (r: string)
    ensures c in s ==> exists i :: 0 <= i < |s| && s[i] == c && c !in s[..i] && r == s[..i] + s[i + 1..]
    ensures c !in s ==> r == s
  {
    if c in s then
      var i := FirstIndex(s, c);
      s[..i] + s[i + 1..]
    else s
  }

  /** `String.prototype.split('/')`: the pieces between the slashes, in order. */
  function Split(s: string): (parts: seq<string>)
    ensures |parts| > 0
    ensures forall k :: 0 <= k < |parts| ==> '/' !in parts[k]
    decreases |s|
  {
    if '/' in s then
      var i := FirstIndex(s, '/');
      [s[..i]] + Split(s[i + 1..])
    else [s]
  }

  /** The inverse of `Split`: the pieces joined by slashes. */
  function Join(parts: seq<string>): string
    requires |parts| > 0
  {
    if |parts| == 1 then parts[0] else parts[0] + "/" + Join(parts[1..])
  }

  /** `parts[i] || fallback` for a piece that may be missing. */
  function Segment(parts: seq<string>, i: nat): Option<string>
  {
    if i < |parts| && parts[i] != "" then Some(parts[i]) else None
  }

  /** Parses `window.location.hash`: drop the first '#', split on '/', take
      the first three pieces; an empty page means the home page. */
  function ParseHash(hash: string): (r: Route)
    ensures r.page != ""
    ensures r.param != None ==> r.param.value != "" && '/' !in r.param.value
    ensures r.sub != None ==> r.sub.value != "" && '/' !in r.sub.value
  {
    var parts := Split(RemoveFirst(hash, '#'));
    Route(if parts[0] != "" then parts[0] else "home", Segment(parts, 1), Segment(parts, 2))
  }

  /** The location `navigate(page)` writes. */
  function Navigate(page: string): (h: string)
    ensures '#' in h && RemoveFirst(h, '#') == page
  {
    assert ("#" + page)[0] == '#';
    "#" + page
  }

  /** Splitting then joining gives back the string. */
  lemma {:induction false} JoinSplit(s: string)
    ensures Join(Split(s)) == s
    decreases |s|
  {
    if '/' in s {
      var i := FirstIndex(s, '/');
      JoinSplit(s[i + 1..]);
      assert s == s[..i] + "/" + s[i + 1..];
    }
  }

  /** Joining slash-free pieces then splitting gives back the pieces. */
  lemma {:induction false} SplitJoin(parts: seq<string>)
    requires |parts| > 0
    requires forall k :: 0 <= k < |parts| ==> '/' !in parts[k]
    ensures Split(Join(parts)) == parts
  {
    if |parts| > 1 {
      var s := Join(parts);
      var p := parts[0];
      assert s == p + "/" + Join(parts[1..]);
      assert s[|p|] == '/';
      assert s[..|p|] == p;
      var i := FirstIndex(s, '/');
      assert i == |p|;
      assert s[i + 1..] == Join(parts[1..]);
      SplitJoin(parts[1..]);
    }
  }

  /** A location written by `Navigate` parses back to its pieces: the page,
      then the parameter and the sub-parameter when present and non-empty;
      pieces after the third are ignored. */
  lemma NavigateRoundTrip(parts: seq<string>)
    requires |parts| > 0
    requires forall k :: 0 <= k < |parts| ==> '/' !in parts[k]
    ensures ParseHash(Navigate(Join(parts))) ==
      Route(if parts[0] != "" then parts[0] else "home", Segment(parts, 1), Segment(parts, 2))
  {
    var h := Navigate(Join(parts));
    assert FirstIndex(h, '#') == 0;
    assert RemoveFirst(h, '#') == Join(parts);
    SplitJoin(parts);
  }

  /** In particular `navigate(p)` for a non-empty page without '/' leads to `p`. */
  lemma NavigatePage(p: string)
    requires p != "" && '/' !in p
    ensures ParseHash(Navigate(p)) == Route(p, None, None)
  {
    NavigateRoundTrip([p]);
  }
}
