/** Go's string helpers as the hub and its clients use them. A `char` stands for one byte. */
module Text {

  datatype Option<+T> = None | Some(value: T)

  /** strings.Join */
  function Join(parts: seq<string>, sep: string): string {
    if |parts| == 0 then ""
    else if |parts| == 1 then parts[0]
    else parts[0] + sep + Join(parts[1..], sep)
  }

  /** strings.Split with a one-byte separator */
  function Split(s: string, c: char): (parts: seq<string>)
    ensures |parts| >= 1
    ensures forall i :: 0 <= i < |parts| ==> c !in parts[i]
  {
    if s == "" then [""]
    else
      var rest := Split(s[1..], c);
      if s[0] == c then [""] + rest else [[s[0]] + rest[0]] + rest[1..]
  }

  /** strings.IndexByte, with `|s|` for "absent" */
  function IndexOf(s: string, c: char): (i: nat)
    ensures i <= |s|
    ensures c !in s[..i]
    ensures i < |s| ==> s[i] == c
  {
    if s == "" then 0
    else if s[0] == c then 0
    else
      var i := 1 + IndexOf(s[1..], c);
      assert s[..i] == [s[0]] + s[1..][..i - 1];
      i
  }

  /** strings.Cut: the text around the first separator, all of it when there is none */
  function Cut(s: string, c: char): (string, string) {
    var i := IndexOf(s, c);
    (s[..i], if i < |s| then s[i + 1..] else "")
  }

  /** strings.TrimPrefix with a one-byte prefix */
  function TrimByte(s: string, c: char): string {
    if s != "" && s[0] == c then s[1..] else s
  }

  lemma ConcatAssoc<T>(a: seq<T>, b: seq<T>, c: seq<T>)
    ensures (a + b) + c == a + (b + c)
  {
  }

  lemma {:induction false} JoinSplit(s: string, c: char)
    ensures Join(Split(s, c), [c]) == s
  {
    if s != "" {
      JoinSplit(s[1..], c);
      var rest := Split(s[1..], c);
      if s[0] == c {
        assert ([""] + rest)[1..] == rest;
      } else {
        var parts := [[s[0]] + rest[0]] + rest[1..];
        assert parts[1..] == rest[1..];
        assert s == [s[0]] + s[1..];
      }
    }
  }

  /** A separator that occurs in no part makes Join injective on lists of one length. */
  lemma {:induction false} JoinInjective(a: seq<string>, b: seq<string>, c: char)
    requires |a| == |b| >= 1
    requires forall i :: 0 <= i < |a| ==> c !in a[i] && c !in b[i]
    requires Join(a, [c]) == Join(b, [c])
    ensures a == b
  {
    if |a| > 1 {
      HeadEndsAtSeparator(a, c);
      HeadEndsAtSeparator(b, c);
      JoinInjective(a[1..], b[1..], c);
      assert a == [a[0]] + a[1..] && b == [b[0]] + b[1..];
    }
  }

  /** IndexOf finds the first occurrence. */
  lemma {:induction false} IndexOfFirst(s: string, c: char, i: nat)
    requires i < |s| && s[i] == c && c !in s[..i]
    ensures IndexOf(s, c) == i
  {
    if i > 0 {
      assert s[0] == s[..i][0];
      assert s[1..][..i - 1] == s[..i][1..];
      IndexOfFirst(s[1..], c, i - 1);
    }
  }

  lemma HeadEndsAtSeparator(a: seq<string>, c: char)
    requires |a| > 1 && c !in a[0]
    ensures IndexOf(Join(a, [c]), c) == |a[0]|
    ensures Join(a, [c])[..|a[0]|] == a[0]
    ensures Join(a, [c])[|a[0]| + 1..] == Join(a[1..], [c])
  {
    var s := Join(a, [c]);
    assert s == a[0] + [c] + Join(a[1..], [c]);
    assert s[..|a[0]|] == a[0];
    IndexOfFirst(s, c, |a[0]|);
  }
}
