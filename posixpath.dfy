/** The parts of Python's posixpath and str.split the planner uses: joining
    path components with '/' (os.path.sep on POSIX), and cutting a path
    into its '/'-separated segments. */
module PosixPath {

  /** The position of the first c in s. */
  function IndexOf(s: string, c: char): (k: nat)
    requires c in s
    ensures k < |s| && s[k] == c && c !in s[..k]
  {
    if s[0] == c then 0 else 1 + IndexOf(s[1..], c)
  }

  /** The first c after a c-free prefix is the one right after it. */
  lemma {:induction false} IndexOfAfter(a: string, c: char, b: string)
    requires c !in a
    ensures c in a + [c] + b && IndexOf(a + [c] + b, c) == |a|
  {
    var s := a + [c] + b;
    assert s[|a|] == c;
    if a != [] {
      assert s[1..] == a[1..] + [c] + b;
      IndexOfAfter(a[1..], c, b);
    }
  }

  /** os.path.join(a, b): b itself when it is absolute; otherwise b appended
      to a, with a '/' in between unless a is empty or already ends in one. */
  function Join(a: string, b: string): string {
    if |b| > 0 && b[0] == '/' then b
    else if a == "" || a[|a| - 1] == '/' then a + b
    else a + "/" + b
  }

  /** os.path.join(p0, p1, ..., pn): the components joined from the left.
      Python raises TypeError when there is no component at all. */
  function JoinAll(parts: seq<string>): string
    requires |parts| >= 1
  {
    if |parts| == 1 then parts[0] else Join(JoinAll(parts[..|parts| - 1]), parts[|parts| - 1])
  }

  /** '/'.join(parts): the segments with one '/' between neighbours. */
  function Intercalate(parts: seq<string>): string
    requires |parts| >= 1
  {
    if |parts| == 1 then parts[0] else Intercalate(parts[..|parts| - 1]) + "/" + parts[|parts| - 1]
  }

  lemma {:induction false} IntercalateCons(a: string, parts: seq<string>)
    requires |parts| >= 1
    ensures Intercalate([a] + parts) == a + "/" + Intercalate(parts)
  {
    if |parts| > 1 {
      assert ([a] + parts)[..|parts|] == [a] + parts[..|parts| - 1];
      IntercalateCons(a, parts[..|parts| - 1]);
    }
  }

  /** s.split('/'): the maximal '/'-free pieces of s in order, one more
      than s has separators.  Joining them with '/' gives s back. */
  function Split(s: string): (parts: seq<string>)
    ensures |parts| >= 1
    ensures |parts| == 1 <==> '/' !in s
    ensures forall i :: 0 <= i < |parts| ==> '/' !in parts[i]
    ensures Intercalate(parts) == s
    decreases |s|
  {
    if '/' !in s then [s]
    else
      var k := IndexOf(s, '/');
      var rest := Split(s[k + 1..]);
      IntercalateCons(s[..k], rest);
      assert s == s[..k] + "/" + s[k + 1..];
      [s[..k]] + rest
  }

  /** No segment of s is empty, except possibly the one after a trailing '/'. */
  predicate NoEmptyInnerSegment(s: string) {
    var parts := Split(s);
    forall i :: 0 <= i < |parts| - 1 ==> parts[i] != ""
  }

  /** Joining clean segments component by component gives the same path as
      putting '/' between them. */
  lemma {:induction false} JoinAllIsIntercalate(parts: seq<string>)
    requires |parts| >= 1
    requires forall i :: 0 <= i < |parts| ==> '/' !in parts[i]
    requires forall i :: 0 <= i < |parts| - 1 ==> parts[i] != ""
    ensures JoinAll(parts) == Intercalate(parts)
  {
    if |parts| > 1 {
      var init := parts[..|parts| - 1];
      var last := parts[|parts| - 1];
      JoinAllIsIntercalate(init);
      IntercalateEnds(init);
      assert last == "" || last[0] != '/' by {
        if last != "" { assert last[0] in last; }
      }
    }
  }

  lemma {:induction false} IntercalateEnds(parts: seq<string>)
    requires |parts| >= 1
    requires forall i :: 0 <= i < |parts| ==> '/' !in parts[i] && parts[i] != ""
    ensures var s := Intercalate(parts); s != "" && s[|s| - 1] == parts[|parts| - 1][|parts[|parts| - 1]| - 1]
    ensures var s := Intercalate(parts); s[|s| - 1] != '/'
  {
    var last := parts[|parts| - 1];
    assert last[|last| - 1] in last;
  }

}
