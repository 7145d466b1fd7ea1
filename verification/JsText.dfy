/** The string operations of JavaScript that the executors lean on. */
module JsText {
  /** What `trim` removes. */
  predicate IsSpace(c: char) {
    || '\t' <= c <= '\r' || c == ' ' || c == '\U{00A0}' || c == '\U{1680}'
    || '\U{2000}' <= c <= '\U{200A}' || c == '\U{2028}' || c == '\U{2029}'
    || c == '\U{202F}' || c == '\U{205F}' || c == '\U{3000}' || c == '\U{FEFF}'
  }

  function Trim(s: string): (r: string)
    ensures r != "" ==> !IsSpace(r[0]) && !IsSpace(r[|r| - 1])
  {
    if s == "" then ""
    else if IsSpace(s[0]) then Trim(s[1..])
    else if IsSpace(s[|s| - 1]) then Trim(s[..|s| - 1])
    else s
  }

  /** Nothing but blanks. */
  predicate Blank(s: string) {
    forall i :: 0 <= i < |s| ==> IsSpace(s[i])
  }

  /** `middle` is what lies between positions `i` and `k`, with blanks before and behind. */
  predicate PaddedAt(s: string, middle: string, i: nat, k: nat) {
    i <= k <= |s| && s[i..k] == middle && Blank(s[..i]) && Blank(s[k..])
  }

  ghost predicate Padded(s: string, middle: string) {
    exists i: nat, k: nat :: PaddedAt(s, middle, i, k)
  }

  lemma PaddedFront(s: string, middle: string, i: nat, k: nat)
    requires s != "" && IsSpace(s[0]) && PaddedAt(s[1..], middle, i, k)
    ensures PaddedAt(s, middle, i + 1, k + 1)
  {
    var t := s[1..];
    assert s[i + 1..k + 1] == t[i..k] && s[k + 1..] == t[k..];
    assert s[..i + 1] == [s[0]] + t[..i];
  }

  lemma PaddedBack(s: string, middle: string, i: nat, k: nat)
    requires s != "" && IsSpace(s[|s| - 1]) && PaddedAt(s[..|s| - 1], middle, i, k)
    ensures PaddedAt(s, middle, i, k)
  {
    var t := s[..|s| - 1];
    assert s[i..k] == t[i..k] && s[..i] == t[..i];
    assert s[k..] == t[k..] + [s[|s| - 1]];
  }

  /** Trimming takes blanks off both ends and nothing else. */
  lemma {:induction false} TrimPads(s: string)
    ensures Padded(s, Trim(s))
  {
    if s == "" {
      assert PaddedAt(s, "", 0, 0);
    } else if IsSpace(s[0]) {
      TrimPads(s[1..]);
      var i: nat, k: nat :| PaddedAt(s[1..], Trim(s), i, k);
      PaddedFront(s, Trim(s), i, k);
    } else if IsSpace(s[|s| - 1]) {
      TrimPads(s[..|s| - 1]);
      var i: nat, k: nat :| PaddedAt(s[..|s| - 1], Trim(s), i, k);
      PaddedBack(s, Trim(s), i, k);
    } else {
      assert PaddedAt(s, s, 0, |s|);
    }
  }

  lemma {:induction false} BlankExactly(s: string)
    ensures Trim(s) == "" <==> Blank(s)
  {
    if s != "" && IsSpace(s[0]) {
      BlankExactly(s[1..]);
      assert s == [s[0]] + s[1..];
    } else if s != "" && IsSpace(s[|s| - 1]) {
      BlankExactly(s[..|s| - 1]);
      assert s == s[..|s| - 1] + [s[|s| - 1]] && s[..|s| - 1] != "" && s[..|s| - 1][0] == s[0];
    }
  }

  predicate StartsWith(s: string, prefix: string) {
    |prefix| <= |s| && s[..|prefix|] == prefix
  }

  /** The position of the first `c`, or the length. */
  function IndexOf(s: string, c: char): (i: nat)
    ensures i <= |s| && (i < |s| ==> s[i] == c) && forall j :: 0 <= j < i ==> s[j] != c
  {
    if s == "" || s[0] == c then 0 else 1 + IndexOf(s[1..], c)
  }

  ghost predicate SlashFree(s: string) {
    forall i :: 0 <= i < |s| ==> s[i] != '/'
  }

  /** The first slash ends a slash-free prefix. */
  lemma IndexOfSlash(p: string, r: string)
    requires SlashFree(p)
    ensures IndexOf(p + "/" + r, '/') == |p| < |p + "/" + r|
    ensures (p + "/" + r)[..|p|] == p && (p + "/" + r)[|p| + 1..] == r
    ensures StartsWith(p + "/" + r, p + "/")
  {
    var s := p + "/" + r;
    assert s[|p|] == '/';
    forall j | 0 <= j < |p| ensures s[j] != '/' {
      assert s[j] == p[j];
    }
    assert s[..|p + "/"|] == p + "/";
  }

  lemma PrefixSplit(s: string, q: string)
    requires StartsWith(s, q + "/")
    ensures s == q + "/" + s[|q| + 1..]
  {
    assert s == s[..|q + "/"|] + s[|q + "/"|..];
  }

  lemma SameFront(front: string, a: string, b: string)
    ensures front + a == front + b <==> a == b
  {
    if front + a == front + b {
      assert (front + a)[|front|..] == a && (front + b)[|front|..] == b;
    }
  }
}
