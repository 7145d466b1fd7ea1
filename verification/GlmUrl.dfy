/** Joining a GLM base URL with an endpoint path, when the base may already end in an endpoint. */
module GlmUrl {
  import opened JsText
  import opened OrderedMap

  const CHAT: string := "/chat/completions"
  const MODELS: string := "/models"
  const MESSAGES: string := "/messages"
  const COUNT_TOKENS: string := "/messages/count_tokens"
  const V1: string := "/v1"

  function Lower(c: char): char {
    if 'A' <= c <= 'Z' then c - 'A' + 'a' else c
  }

  /** `suffix`, itself in lower case, ends `s` in any case. */
  predicate EndsWith(s: string, suffix: string) {
    |suffix| <= |s| && forall k :: 0 <= k < |suffix| ==> Lower(s[|s| - |suffix| + k]) == suffix[k]
  }

  predicate IsDigit(c: char) {
    '0' <= c <= '9'
  }

  /** Where the digits at the end of `s` begin. */
  function DigitsStart(s: string): (d: nat)
    ensures d <= |s| && forall i :: d <= i < |s| ==> IsDigit(s[i])
    ensures d > 0 ==> !IsDigit(s[d - 1])
  {
    if s != "" && IsDigit(s[|s| - 1]) then DigitsStart(s[..|s| - 1]) else |s|
  }

  /** Where a version segment (slash, v, digits) at the end of `s` begins. */
  function VersionStart(s: string): (r: Option<nat>)
    ensures r.Some? ==> r.value < |s|
  {
    var d := DigitsStart(s);
    if 2 <= d < |s| && s[d - 2] == '/' && Lower(s[d - 1]) == 'v' then Some(d - 2) else None
  }

  predicate StartsQuery(c: char) {
    c == '?' || c == '#'
  }

  /** The length of what comes before a query or a fragment. */
  function PathLength(url: string): (n: nat)
    ensures n <= |url| && (n < |url| ==> StartsQuery(url[n])) && forall i :: 0 <= i < n ==> !StartsQuery(url[i])
  {
    if url == "" || StartsQuery(url[0]) then 0 else 1 + PathLength(url[1..])
  }

  function WithoutSlashes(s: string): string {
    if s != "" && s[|s| - 1] == '/' then WithoutSlashes(s[..|s| - 1]) else s
  }

  function WithoutVersion(s: string): string {
    var v := VersionStart(s);
    if v.Some? then s[..v.value] else s
  }

  /** At most one endpoint goes, and with a messages endpoint the version before it. */
  function WithoutEndpoint(base: string): string {
    if EndsWith(base, COUNT_TOKENS) then WithoutVersion(base[..|base| - |COUNT_TOKENS|])
    else if EndsWith(base, MESSAGES) then WithoutVersion(base[..|base| - |MESSAGES|])
    else if EndsWith(base, CHAT) then base[..|base| - |CHAT|]
    else if EndsWith(base, MODELS) then base[..|base| - |MODELS|]
    else base
  }

  /** Base and suffix of a URL. */
  function Stripped(url: string): (string, string) {
    (WithoutEndpoint(WithoutSlashes(url[..PathLength(url)])), url[PathLength(url)..])
  }

  /** `base` ends in exactly the version that `path` begins with, in any case. */
  predicate SharesVersion(base: string, path: string) {
    var v := VersionStart(base);
    v.Some? && |base| - v.value < |path| && path[|base| - v.value] == '/'
    && forall k :: 0 <= k < |base| - v.value ==> Lower(path[k]) == Lower(base[v.value + k])
  }

  function Placed(base: string, path: string): string {
    var normalized := if path != "" && path[0] == '/' then path else "/" + path;
    if SharesVersion(base, normalized) then base + normalized[|base| - VersionStart(base).value..]
    else base + normalized
  }

  function Join(url: string, path: string): string {
    Placed(Stripped(url).0, path) + Stripped(url).1
  }

  method TrimSlashes(s: string) returns (base: string)
    ensures base == WithoutSlashes(s)
  {
    base := s;
    while base != "" && base[|base| - 1] == '/'
      invariant WithoutSlashes(base) == WithoutSlashes(s)
      decreases |base|
    {
      base := base[..|base| - 1];
    }
  }

  method StripKnownEndpointSuffix(url: string) returns (base: string, suffix: string)
    ensures (base, suffix) == Stripped(url)
  {
    suffix := url[PathLength(url)..];
    base := TrimSlashes(url[..PathLength(url)]);
    base := WithoutEndpoint(base);
  }

  // ---------------------------------------------------------------- taking a joined URL apart again

  ghost predicate NoQuery(s: string) {
    forall i :: 0 <= i < |s| ==> !StartsQuery(s[i])
  }

  lemma {:induction false} WithoutSlashesPrefix(s: string)
    ensures WithoutSlashes(s) <= s
  {
    if s != "" && s[|s| - 1] == '/' {
      WithoutSlashesPrefix(s[..|s| - 1]);
    }
  }

  /** What is stripped off is never part of the base: base and suffix keep out of each other's way. */
  lemma StrippedParts(url: string)
    ensures NoQuery(Stripped(url).0)
    ensures Stripped(url).1 == "" || StartsQuery(Stripped(url).1[0])
  {
    var path := url[..PathLength(url)];
    WithoutSlashesPrefix(path);
    assert Stripped(url).0 <= path;
  }

  /** The path ends where the query begins. */
  lemma PathLengthPlus(path: string, suffix: string)
    requires NoQuery(path) && (suffix == "" || StartsQuery(suffix[0]))
    ensures PathLength(path + suffix) == |path|
    ensures (path + suffix)[..|path|] == path && (path + suffix)[|path|..] == suffix
  {
    var url, n := path + suffix, PathLength(path + suffix);
    assert forall i :: 0 <= i < |path| ==> url[i] == path[i];
    assert suffix != "" ==> url[|path|] == suffix[0];
  }

  /** A base with an endpoint on it, in front of a query, comes apart again. */
  lemma StrippedJoined(base: string, tail: string, suffix: string)
    requires NoQuery(base) && NoQuery(tail) && (suffix == "" || StartsQuery(suffix[0]))
    requires tail != "" && tail[|tail| - 1] != '/'
    ensures Stripped(base + tail + suffix) == (WithoutEndpoint(base + tail), suffix)
  {
    var path := base + tail;
    assert forall i :: 0 <= i < |base| ==> path[i] == base[i];
    assert forall i :: |base| <= i < |path| ==> path[i] == tail[i - |base|];
    PathLengthPlus(path, suffix);
    assert path[|path| - 1] == tail[|tail| - 1];
    assert WithoutSlashes(path) == path;
  }

  lemma EndsWithPlus(base: string, suffix: string)
    requires forall k :: 0 <= k < |suffix| ==> Lower(suffix[k]) == suffix[k]
    ensures EndsWith(base + suffix, suffix) && (base + suffix)[..|base|] == base
  {
  }

  /** Two endings that differ `k` places from the end exclude each other. */
  lemma EndsOtherwise(s: string, suffix: string, k: nat)
    requires 1 <= k <= |suffix| && k <= |s| && Lower(s[|s| - k]) != suffix[|suffix| - k]
    ensures !EndsWith(s, suffix)
  {
    if |suffix| <= |s| {
      assert s[|s| - |suffix| + (|suffix| - k)] == s[|s| - k];
    }
  }

  /** The two endpoints that take no version with them. */
  lemma PlainEndpointComesOff(base: string, path: string)
    requires path == CHAT || path == MODELS
    ensures WithoutEndpoint(base + path) == base
  {
    var s := base + path;
    EndsWithPlus(base, path);
    assert s[|s| - 3] == path[|path| - 3] && s[|s| - 2] == path[|path| - 2];
    EndsOtherwise(s, COUNT_TOKENS, if path == CHAT then 3 else 2);
    EndsOtherwise(s, MESSAGES, if path == CHAT then 2 else 3);
    if path == MODELS {
      EndsOtherwise(s, CHAT, 2);
    }
  }

  lemma MessagesComesOff(base: string, path: string)
    requires path == MESSAGES || path == COUNT_TOKENS
    ensures WithoutEndpoint(base + path) == WithoutVersion(base)
  {
    var s := base + path;
    EndsWithPlus(base, path);
    if path == MESSAGES {
      assert s[|s| - 2] == path[|path| - 2];
      EndsOtherwise(s, COUNT_TOKENS, 2);
    }
  }

  /** No plain endpoint path begins with a version. */
  lemma PlainPathPlaced(base: string, path: string)
    requires path == CHAT || path == MODELS
    ensures Placed(base, path) == base + path
  {
    var v := VersionStart(base);
    assert path[0] == '/' && Lower(path[1]) != 'v';
    if v.Some? {
      assert Lower(base[v.value + 1]) == 'v';
      assert !SharesVersion(base, path);
    }
  }

  ghost predicate IsTail(tail: string) {
    NoQuery(tail) && tail != "" && tail[0] == '/' && tail[|tail| - 1] != '/'
  }

  lemma EndpointIsTail(path: string)
    requires path == CHAT || path == MODELS || path == MESSAGES || path == COUNT_TOKENS
    ensures IsTail(path)
  {
  }

  /** A join that put `tail` behind `base` comes apart there. */
  lemma JoinStrips(url: string, path: string, base: string, tail: string)
    requires Placed(Stripped(url).0, path) == base + tail && NoQuery(base) && IsTail(tail)
    ensures Join(url, path) == base + tail + Stripped(url).1
    ensures Stripped(Join(url, path)) == (WithoutEndpoint(base + tail), Stripped(url).1)
  {
    StrippedParts(url);
    StrippedJoined(base, tail, Stripped(url).1);
  }

  /** Joining with one of these paths is taken back by stripping. */
  lemma PlainJoinStrips(url: string, path: string)
    requires path == CHAT || path == MODELS
    ensures Stripped(Join(url, path)) == Stripped(url)
  {
    var base := Stripped(url).0;
    StrippedParts(url);
    PlainPathPlaced(base, path);
    PlainEndpointComesOff(base, path);
    EndpointIsTail(path);
    JoinStrips(url, path, base, path);
  }

  /** So any later join behaves as if the first had not happened, and joining twice is joining once. */
  lemma PlainJoinAbsorbed(url: string, path: string, next: string)
    requires path == CHAT || path == MODELS
    ensures Join(Join(url, path), next) == Join(url, next)
    ensures Join(Join(url, path), path) == Join(url, path)
  {
    PlainJoinStrips(url, path);
  }

  // ---------------------------------------------------------------- versioned paths

  /** `base` ends in the version segment `/v1`, in any case. */
  predicate EndsInV1(base: string) {
    |base| >= 3 && base[|base| - 3] == '/' && Lower(base[|base| - 2]) == 'v' && base[|base| - 1] == '1'
  }

  lemma V1Version(base: string)
    requires EndsInV1(base)
    ensures VersionStart(base) == Some(|base| - 3)
  {
    var init := base[..|base| - 1];
    assert DigitsStart(base) == DigitsStart(init) == |init|;
  }

  /** A version segment other than `/v1` disagrees with `/v1/` in its third or fourth character. */
  lemma OtherVersion(base: string, path: string)
    requires !EndsInV1(base) && |path| > 3 && path[..3] == V1 && path[3] == '/'
    ensures !SharesVersion(base, path)
  {
    assert path[2] == path[..3][2] == '1';
    var v := VersionStart(base);
    if v.Some? {
      var n := |base| - v.value;
      assert IsDigit(base[v.value + 2]);
      if n == 3 {
        assert Lower(path[2]) != Lower(base[v.value + 2]);
      } else {
        assert IsDigit(base[v.value + 3]);
        assert Lower(path[3]) != Lower(base[v.value + 3]);
      }
    }
  }

  lemma V1PathShared(base: string, path: string)
    requires EndsInV1(base) && |path| > 3 && path[..3] == V1 && path[3] == '/'
    ensures SharesVersion(base, path) && VersionStart(base) == Some(|base| - 3)
  {
    V1Version(base);
    var v := |base| - 3;
    assert path[0] == path[..3][0] && path[1] == path[..3][1] && path[2] == path[..3][2];
    assert Lower(path[0]) == Lower(base[v]) && Lower(path[1]) == Lower(base[v + 1]);
    assert Lower(path[2]) == Lower(base[v + 2]);
  }

  /** A path under `/v1` shares its version with exactly the bases that end in it. */
  lemma V1PathPlaced(base: string, rest: string)
    requires rest != "" && rest[0] == '/'
    ensures Placed(base, V1 + rest) == (if EndsInV1(base) then base else base + V1) + rest
  {
    var path := V1 + rest;
    assert path[..3] == V1 && path[3..] == rest && path[3] == rest[0] && path[0] == V1[0];
    if EndsInV1(base) {
      V1PathShared(base, path);
    } else {
      OtherVersion(base, path);
      assert base + (V1 + rest) == base + V1 + rest;
    }
  }

  /** The base with its `/v1`, its own or a new one. */
  function Versioned(base: string): (r: string)
    ensures EndsInV1(r) && base <= r
  {
    if EndsInV1(base) then base else base + V1
  }

  lemma VersionedBase(base: string)
    ensures Versioned(Versioned(base)) == Versioned(base)
    ensures WithoutVersion(Versioned(base)) == Versioned(base)[..|Versioned(base)| - 3]
    ensures !EndsInV1(base) ==> WithoutVersion(Versioned(base)) == base
    ensures NoQuery(base) ==> NoQuery(Versioned(base))
  {
    V1Version(Versioned(base));
    var full := Versioned(base);
    assert forall i :: 0 <= i < |base| ==> full[i] == base[i];
  }

  lemma VersionedJoin(url: string, path: string)
    requires path == MODELS || path == MESSAGES || path == COUNT_TOKENS
    ensures var (base, suffix) := Stripped(url);
      && Join(url, V1 + path) == Versioned(base) + path + suffix
      && Stripped(Join(url, V1 + path)) == (WithoutEndpoint(Versioned(base) + path), suffix)
  {
    var base := Stripped(url).0;
    StrippedParts(url);
    EndpointIsTail(path);
    V1PathPlaced(base, path);
    VersionedBase(base);
    JoinStrips(url, V1 + path, Versioned(base), path);
  }

  /** Joining with `/v1/models` twice is joining once, for every base. */
  lemma V1ModelsJoinIdempotent(url: string)
    ensures Join(Join(url, V1 + MODELS), V1 + MODELS) == Join(url, V1 + MODELS)
  {
    var base := Stripped(url).0;
    VersionedJoin(url, MODELS);
    PlainEndpointComesOff(Versioned(base), MODELS);
    VersionedBase(base);
    VersionedJoin(Join(url, V1 + MODELS), MODELS);
  }

  /** What the second join makes of the base: it strips the version with the endpoint and puts `/v1` back. */
  lemma MessagesJoinedTwice(url: string, path: string)
    requires path == MESSAGES || path == COUNT_TOKENS
    ensures var (base, suffix) := Stripped(url);
      var full := Versioned(base);
      Join(Join(url, V1 + path), V1 + path) == Versioned(full[..|full| - 3]) + path + suffix
  {
    var base := Stripped(url).0;
    VersionedJoin(url, path);
    MessagesComesOff(Versioned(base), path);
    VersionedBase(base);
    VersionedJoin(Join(url, V1 + path), path);
  }

  lemma SameInFront(a: string, b: string, tail: string)
    ensures a + tail == b + tail <==> a == b
  {
    if a + tail == b + tail {
      assert |a| == |b| && (a + tail)[..|a|] == a && (b + tail)[..|b|] == b;
    }
  }

  lemma RestoredExactly(full: string)
    requires EndsInV1(full)
    ensures Versioned(full[..|full| - 3]) == full <==> full[|full| - 3..] == V1 && !EndsInV1(full[..|full| - 3])
  {
    var bare := full[..|full| - 3];
    assert full == bare + full[|full| - 3..];
    SameFront(bare, V1, full[|full| - 3..]);
  }

  lemma SameBetween(a: string, b: string, middle: string, tail: string)
    ensures a + middle + tail == b + middle + tail <==> a == b
  {
    SameInFront(a + middle, b + middle, tail);
    SameInFront(a, b, middle);
  }

  lemma MessagesJoinedSame(url: string, path: string)
    requires path == MESSAGES || path == COUNT_TOKENS
    ensures Join(Join(url, V1 + path), V1 + path) == Join(url, V1 + path) <==> Restored(Stripped(url).0)
  {
    var (base, suffix) := Stripped(url);
    var full := Versioned(base);
    VersionedJoin(url, path);
    MessagesJoinedTwice(url, path);
    SameBetween(Versioned(full[..|full| - 3]), full, path, suffix);
  }

  /** The stripped base ends in no `/v1`, or in exactly one, spelt so. */
  predicate PlainlyVersioned(base: string) {
    EndsInV1(base) ==> base[|base| - 3..] == V1 && !EndsInV1(base[..|base| - 3])
  }

  /** Taking the version off and putting `/v1` back restores the versioned base. */
  predicate Restored(base: string) {
    var full := Versioned(base);
    Versioned(full[..|full| - 3]) == full
  }

  lemma RestoredPlainly(base: string)
    ensures Restored(base) <==> PlainlyVersioned(base)
  {
    if EndsInV1(base) {
      RestoredExactly(base);
    } else {
      VersionedSplit(base);
    }
  }

  /** Joining with `/v1/messages` or `/v1/messages/count_tokens` twice is joining once, unless the stripped
      base ends in `/v1` spelt otherwise, or in `/v1` twice over. */
  lemma MessagesJoinIdempotentExactly(url: string, path: string)
    requires path == MESSAGES || path == COUNT_TOKENS
    ensures Join(Join(url, V1 + path), V1 + path) == Join(url, V1 + path) <==> PlainlyVersioned(Stripped(url).0)
  {
    MessagesJoinedSame(url, path);
    RestoredPlainly(Stripped(url).0);
  }

  lemma VersionedSplit(base: string)
    ensures !EndsInV1(base) ==> var full := Versioned(base); full[..|full| - 3] == base && full[|full| - 3..] == V1
  {
  }

  lemma BareBase(url: string)
    requires NoQuery(url) && url != ""
    requires url[|url| - 1] != '/' && Lower(url[|url| - 1]) != 's'
    ensures Stripped(url) == (url, "")
  {
    PathLengthPlus(url, "");
    assert url + "" == url;
    EndsOtherwise(url, COUNT_TOKENS, 1);
    EndsOtherwise(url, MESSAGES, 1);
    EndsOtherwise(url, CHAT, 1);
    EndsOtherwise(url, MODELS, 1);
    assert WithoutSlashes(url) == url;
  }

  lemma DoubledBase()
    ensures var base := "h/v1/v1"; EndsInV1(base) && EndsInV1(base[..|base| - 3])
    ensures NoQuery("h/v1/v1")
  {
    var base := "h/v1/v1";
    assert base[..|base| - 3] == "h/v1";
  }

  /** So the law does fail for a base a user may type. */
  lemma DoubledVersionIsEaten()
    ensures Join(Join("h/v1/v1", V1 + MESSAGES), V1 + MESSAGES) != Join("h/v1/v1", V1 + MESSAGES)
  {
    DoubledBase();
    BareBase("h/v1/v1");
    MessagesJoinIdempotentExactly("h/v1/v1", MESSAGES);
  }

  /** And for one that spells its version in upper case. */
  lemma UpperCaseVersionIsChanged()
    ensures Join(Join("h/V1", V1 + MESSAGES), V1 + MESSAGES) != Join("h/V1", V1 + MESSAGES)
  {
    var base := "h/V1";
    assert EndsInV1(base) && base[|base| - 3..][1] != V1[1];
    BareBase(base);
    MessagesJoinIdempotentExactly(base, MESSAGES);
  }

  // ---------------------------------------------------------------- versions and letter case

  /** A version segment is a slash, a v in either case, and one digit or more, at the end. */
  lemma VersionStartExactly(s: string, i: nat)
    ensures VersionStart(s) == Some(i)
      <==> i + 2 < |s| && s[i] == '/' && (s[i + 1] == 'v' || s[i + 1] == 'V')
           && forall j :: i + 2 <= j < |s| ==> '0' <= s[j] <= '9'
  {
    var d := DigitsStart(s);
    if i + 2 < |s| && s[i] == '/' && (s[i + 1] == 'v' || s[i + 1] == 'V')
       && (forall j :: i + 2 <= j < |s| ==> '0' <= s[j] <= '9') {
      assert d <= i + 2 && !IsDigit(s[i + 1]);
      assert d == i + 2;
    }
  }

  /** Endpoints are recognised in either case, letter by letter. */
  lemma EndsWithExactly(s: string, suffix: string)
    requires forall k :: 0 <= k < |suffix| ==> !('A' <= suffix[k] <= 'Z')
    ensures EndsWith(s, suffix)
      <==> |suffix| <= |s|
           && forall k :: 0 <= k < |suffix| ==>
             var c := s[|s| - |suffix| + k];
             c == suffix[k] || ('a' <= suffix[k] <= 'z' && c as int == suffix[k] as int - 32)
  {
  }

  /** Whatever the version: a base and a path that share it join with one of it. */
  lemma SameVersionPlaced(head: string, digits: string, rest: string)
    requires digits != "" && (forall j :: 0 <= j < |digits| ==> '0' <= digits[j] <= '9')
    requires rest != "" && rest[0] == '/'
    ensures Placed(head + "/v" + digits, "/v" + digits + rest) == head + "/v" + digits + rest
    ensures WithoutVersion(head + "/v" + digits) == head
  {
    var base, path := head + "/v" + digits, "/v" + digits + rest;
    assert base[|head|] == '/' && base[|head| + 1] == 'v' && base[..|head|] == head;
    assert forall j :: |head| + 2 <= j < |base| ==> base[j] == digits[j - |head| - 2];
    VersionStartExactly(base, |head|);
    assert path[0] == '/' && path[|digits| + 2] == rest[0] && path[|digits| + 2..] == rest;
    assert forall k :: 0 <= k < |digits| + 2 ==> path[k] == base[|head| + k];
  }

  // ---------------------------------------------------------------- bases that are no endpoint yet

  ghost predicate AllSlashes(s: string) {
    forall i :: 0 <= i < |s| ==> s[i] == '/'
  }

  /** Trailing slashes go, all of them, and nothing else. */
  lemma {:induction false} WithoutSlashesExactly(base: string, slashes: string)
    requires AllSlashes(slashes) && (base == "" || base[|base| - 1] != '/')
    ensures WithoutSlashes(base + slashes) == base
  {
    if slashes == "" {
      assert base + slashes == base;
    } else {
      var s := base + slashes;
      WithoutSlashesExactly(base, slashes[..|slashes| - 1]);
      assert s[|s| - 1] == slashes[|slashes| - 1] && s[..|s| - 1] == base + slashes[..|slashes| - 1];
    }
  }

  ghost predicate IsEndpoint(base: string) {
    || EndsWith(base, "/messages/count_tokens") || EndsWith(base, "/messages")
    || EndsWith(base, "/chat/completions") || EndsWith(base, "/models")
  }

  lemma PlainStripped(base: string, slashes: string, suffix: string)
    requires NoQuery(base) && AllSlashes(slashes) && (suffix == "" || StartsQuery(suffix[0]))
    requires (base == "" || base[|base| - 1] != '/') && !IsEndpoint(base)
    ensures Stripped(base + slashes + suffix) == (base, suffix)
  {
    var path := base + slashes;
    assert forall i :: 0 <= i < |path| ==> path[i] == if i < |base| then base[i] else slashes[i - |base|];
    PathLengthPlus(path, suffix);
    WithoutSlashesExactly(base, slashes);
  }

  /** A base that is no endpoint, whatever slashes trail it: the path goes right behind it, before the query,
      with its slash or without. */
  lemma PlainBaseJoined(base: string, slashes: string, suffix: string, path: string)
    requires NoQuery(base) && AllSlashes(slashes) && (suffix == "" || StartsQuery(suffix[0]))
    requires (base == "" || base[|base| - 1] != '/') && !IsEndpoint(base)
    requires path == "/chat/completions" || path == "/models"
    ensures Join(base + slashes + suffix, path) == base + path + suffix
    ensures Join(base + slashes + suffix, path[1..]) == base + path + suffix
  {
    PlainStripped(base, slashes, suffix);
    PlainPathPlaced(base, path);
    UnslashedPlaced(base, path);
  }

  lemma UnslashedPlaced(base: string, path: string)
    requires |path| > 1 && path[0] == '/' && path[1] != '/'
    ensures Placed(base, path[1..]) == Placed(base, path)
  {
    assert "/" + path[1..] == path && path[1..][0] == path[1];
  }

  /** A path under `/v1` goes there too, and brings its version only to a base that has not got it. */
  lemma VersionedBaseJoined(base: string, slashes: string, suffix: string, rest: string)
    requires NoQuery(base) && AllSlashes(slashes) && (suffix == "" || StartsQuery(suffix[0]))
    requires (base == "" || base[|base| - 1] != '/') && !IsEndpoint(base)
    requires rest == "/models" || rest == "/messages" || rest == "/messages/count_tokens"
    ensures Join(base + slashes + suffix, "/v1" + rest)
         == (if EndsInV1(base) then base else base + "/v1") + rest + suffix
  {
    PlainStripped(base, slashes, suffix);
    V1PathPlaced(base, rest);
  }
}
