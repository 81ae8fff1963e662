/**
 The strings the service normalises before using them: flag keys, environment names and user ids,
 and the hash input that joins a flag key and a user id.
 */
module Names {
  import opened Values
  import opened StableSorting
  import Rollout

  // ---------------------------------------------------------------- what is assumed of `str.lower`

  predicate IsSlugChar(c: char) {
    'a' <= c <= 'z' || '0' <= c <= '9' || c == '-'
  }

  predicate IsSlug(s: string) {
    forall i | 0 <= i < |s| :: IsSlugChar(s[i])
  }

  /**
   Facts about Python's `str.lower` and `str.strip`: lower-case text stays as it is, lowering twice
   is lowering once, and lowering puts no white space at either end.
   */
  ghost predicate Lawful(h: Host) {
    && (forall s: string :: IsSlug(s) ==> h.lower(s) == s)
    && (forall s: string :: h.lower(h.lower(s)) == h.lower(s))
    && (forall s: string :: Strip(h, s) == s ==> Strip(h, h.lower(s)) == h.lower(s))
  }

  // ---------------------------------------------------------------- flag keys

  function DashForUnderscore(s: string): string {
    seq(|s|, i requires 0 <= i < |s| => if s[i] == '_' then '-' else s[i])
  }

  function KeepSlugChars(s: string): string {
    if s == "" then ""
    else (if IsSlugChar(s[0]) then [s[0]] else "") + KeepSlugChars(s[1..])
  }

  /** `FlagCreate.validate_key`; `None` is the ValueError for an empty slug. */
  function ValidateKey(h: Host, v: string): Option<string> {
    var slug := KeepSlugChars(DashForUnderscore(h.lower(v)));
    if slug == "" then None else Some(slug)
  }

  lemma {:induction false} KeepSlugCharsIsSlug(s: string)
    ensures IsSlug(KeepSlugChars(s))
  {
    if s != "" { KeepSlugCharsIsSlug(s[1..]); }
  }

  lemma {:induction false} SlugIsKept(s: string)
    requires IsSlug(s)
    ensures KeepSlugChars(DashForUnderscore(s)) == s
  {
    assert DashForUnderscore(s) == s;
    if s != "" {
      assert DashForUnderscore(s[1..]) == s[1..];
      SlugIsKept(s[1..]);
    }
  }

  /** An accepted key is a non-empty slug, has no ':' and is accepted unchanged from then on. */
  lemma AcceptedKey(h: Host, v: string)
    requires ValidateKey(h, v).Some?
    ensures var key := ValidateKey(h, v).value;
      && key != "" && IsSlug(key) && ':' !in key
      && (Lawful(h) ==> ValidateKey(h, key) == Some(key))
  {
    var key := ValidateKey(h, v).value;
    KeepSlugCharsIsSlug(DashForUnderscore(h.lower(v)));
    SlugIsKept(key);
  }

  lemma {:induction false} KeepSlugCharsEmpty(s: string)
    ensures KeepSlugChars(s) == "" <==> forall i | 0 <= i < |s| :: !IsSlugChar(s[i])
  {
    if s != "" {
      KeepSlugCharsEmpty(s[1..]);
      assert forall i | 0 < i < |s| :: s[i] == s[1..][i - 1];
    }
  }

  /** A key is refused exactly when, in lower case, it has no letter, digit, hyphen or underscore. */
  lemma RefusedKey(h: Host, v: string)
    ensures ValidateKey(h, v).None? <==>
      var t := h.lower(v); forall i | 0 <= i < |t| :: !IsSlugChar(t[i]) && t[i] != '_'
  {
    var t := h.lower(v);
    var d := DashForUnderscore(t);
    KeepSlugCharsEmpty(d);
    forall i | 0 <= i < |t| ensures IsSlugChar(d[i]) <==> IsSlugChar(t[i]) || t[i] == '_' {}
  }

  /** Text of slug characters and underscores is kept in full, with hyphens for the underscores. */
  lemma UnderscoresBecomeHyphens(h: Host, v: string)
    requires v != "" && h.lower(v) == v && forall i | 0 <= i < |v| :: IsSlugChar(v[i]) || v[i] == '_'
    ensures ValidateKey(h, v).Some? && |ValidateKey(h, v).value| == |v|
    ensures forall i | 0 <= i < |v| :: ValidateKey(h, v).value[i] == if v[i] == '_' then '-' else v[i]
  {
    var t := DashForUnderscore(v);
    assert DashForUnderscore(t) == t;
    SlugIsKept(t);
  }

  /** What a character of the lowered text contributes to the key. */
  function SlugChar(c: char): Option<char> {
    if 'a' <= c <= 'z' || '0' <= c <= '9' || c == '-' then Some(c)
    else if c == '_' then Some('-')
    else None
  }

  lemma {:induction false} KeepSlugCharsIsFilter(s: string)
    ensures KeepSlugChars(s) == Filter(s, IsSlugChar)
  {
    if s != "" { KeepSlugCharsIsFilter(s[1..]); }
  }

  /** The positions before `i` that contribute to the key. */
  function SlugPositions(t: string, i: nat): set<nat>
    requires i <= |t|
  {
    set j: nat | 0 <= j < i && SlugChar(t[j]).Some?
  }

  /**
   The key is the lowered text with hyphens for underscores and everything else left out: each
   character that contributes stands in the key behind exactly those before it.
   */
  lemma KeyMeaning(h: Host, v: string)
    ensures var t := h.lower(v);
      && (ValidateKey(h, v).None? <==> SlugPositions(t, |t|) == {})
      && (ValidateKey(h, v).Some? ==>
            var key := ValidateKey(h, v).value;
            && |key| == |SlugPositions(t, |t|)|
            && forall i | 0 <= i < |t| && SlugChar(t[i]).Some? ::
                 |SlugPositions(t, i)| < |key| && key[|SlugPositions(t, i)|] == SlugChar(t[i]).value)
  {
    var t := h.lower(v);
    var d := DashForUnderscore(t);
    forall i: nat | i <= |t| ensures SlugPositions(t, i) == KeptBefore(d, IsSlugChar, i) {}
    KeepSlugCharsIsFilter(d);
    FilterPlaces(d, IsSlugChar);
    if SlugPositions(t, |t|) == {} { assert |KeptBefore(d, IsSlugChar, |d|)| == 0; }
  }

  // ---------------------------------------------------------------- hash input

  /** Cut at the first ':'. */
  function SplitAtColon(s: string): (string, string) {
    if s == "" then ("", "")
    else if s[0] == ':' then ("", s[1..])
    else var (a, b) := SplitAtColon(s[1..]); ([s[0]] + a, b)
  }

  /** The hash input determines flag and user, whatever the user id contains. */
  lemma {:induction false} HashInputDecodes(flagKey: string, userId: string)
    requires ':' !in flagKey
    ensures SplitAtColon(Rollout.HashInput(flagKey, userId)) == (flagKey, userId)
  {
    var s := Rollout.HashInput(flagKey, userId);
    if flagKey == "" {
      assert s == [':'] + userId && s[1..] == userId;
    } else {
      assert flagKey[0] in flagKey && s[0] == flagKey[0];
      assert flagKey == [flagKey[0]] + flagKey[1..];
      assert s[1..] == Rollout.HashInput(flagKey[1..], userId);
      HashInputDecodes(flagKey[1..], userId);
    }
  }

  /** Distinct (flag, user) pairs never share a hash input. */
  lemma HashInputInjective(h: Host, v: string, v': string, user: string, user': string)
    requires ValidateKey(h, v).Some? && ValidateKey(h, v').Some?
    requires Rollout.HashInput(ValidateKey(h, v).value, user) == Rollout.HashInput(ValidateKey(h, v').value, user')
    ensures ValidateKey(h, v) == ValidateKey(h, v') && user == user'
  {
    AcceptedKey(h, v);
    AcceptedKey(h, v');
    HashInputDecodes(ValidateKey(h, v).value, user);
    HashInputDecodes(ValidateKey(h, v').value, user');
  }

  // ---------------------------------------------------------------- environment names and user ids

  function StripLeft(h: Host, s: string): string {
    if s != "" && h.isSpace(s[0]) then StripLeft(h, s[1..]) else s
  }

  function StripRight(h: Host, s: string): string {
    if s != "" && h.isSpace(s[|s| - 1]) then StripRight(h, s[..|s| - 1]) else s
  }

  function Strip(h: Host, s: string): string {
    StripRight(h, StripLeft(h, s))
  }

  function NormalizeEnvironment(h: Host, v: string): string {
    h.lower(Strip(h, v))
  }

  lemma {:induction false} StripLeftTrims(h: Host, s: string)
    ensures var t := StripLeft(h, s); t == "" || !h.isSpace(t[0])
  {
    if s != "" && h.isSpace(s[0]) { StripLeftTrims(h, s[1..]); }
  }

  lemma {:induction false} StripRightTrims(h: Host, s: string)
    ensures var t := StripRight(h, s); t <= s && (t == "" || !h.isSpace(t[|t| - 1]))
  {
    if s != "" && h.isSpace(s[|s| - 1]) { StripRightTrims(h, s[..|s| - 1]); }
  }

  /** A stripped string is one with no white space at either end, and stripping leaves it alone. */
  lemma StripIdempotent(h: Host, s: string)
    ensures Strip(h, Strip(h, s)) == Strip(h, s)
  {
    StripLeftTrims(h, s);
    StripRightTrims(h, StripLeft(h, s));
  }

  ghost predicate AllSpace(h: Host, s: string) {
    forall i | 0 <= i < |s| :: h.isSpace(s[i])
  }

  /** `t` is what remains of `s` when white space is cut at both ends, and has none there. */
  ghost predicate Stripped(h: Host, s: string, t: string) {
    && (exists a, b :: AllSpace(h, a) && AllSpace(h, b) && s == a + t + b)
    && (t == "" || (!h.isSpace(t[0]) && !h.isSpace(t[|t| - 1])))
  }

  lemma {:induction false} StripLeftCuts(h: Host, s: string) returns (a: string)
    ensures AllSpace(h, a) && s == a + StripLeft(h, s)
  {
    if s != "" && h.isSpace(s[0]) {
      var rest := StripLeftCuts(h, s[1..]);
      a := [s[0]] + rest;
    } else {
      a := "";
    }
  }

  lemma {:induction false} StripRightCuts(h: Host, s: string) returns (b: string)
    ensures AllSpace(h, b) && s == StripRight(h, s) + b
  {
    if s != "" && h.isSpace(s[|s| - 1]) {
      var rest := StripRightCuts(h, s[..|s| - 1]);
      b := rest + [s[|s| - 1]];
      assert s == StripRight(h, s) + b;
    } else {
      b := "";
    }
  }

  lemma {:induction false} StripLeftOf(h: Host, a: string, s: string)
    requires AllSpace(h, a)
    ensures StripLeft(h, a + s) == StripLeft(h, s)
  {
    if a == "" {
      assert a + s == s;
    } else {
      assert (a + s)[1..] == a[1..] + s;
      StripLeftOf(h, a[1..], s);
    }
  }

  lemma {:induction false} StripRightOf(h: Host, s: string, b: string)
    requires AllSpace(h, b)
    ensures StripRight(h, s + b) == StripRight(h, s)
  {
    if b == "" {
      assert s + b == s;
    } else {
      assert (s + b)[..|s + b| - 1] == s + b[..|b| - 1];
      StripRightOf(h, s, b[..|b| - 1]);
    }
  }

  /** `str.strip` gives the one text that remains. */
  lemma StripMeaning(h: Host, s: string, t: string)
    ensures Stripped(h, s, t) <==> t == Strip(h, s)
  {
    var a := StripLeftCuts(h, s);
    var b := StripRightCuts(h, StripLeft(h, s));
    StripLeftTrims(h, s);
    StripRightTrims(h, StripLeft(h, s));
    assert s == a + Strip(h, s) + b;
    if Stripped(h, s, t) {
      var x, y :| AllSpace(h, x) && AllSpace(h, y) && s == x + t + y;
      assert s == x + (t + y);
      StripLeftOf(h, x, t + y);
      StripRightOf(h, t, y);
      if t == "" {
        StripLeftOf(h, y, "");
        assert t + y == y == y + "";
      } else {
        assert StripLeft(h, t + y) == t + y;
      }
    }
  }

  lemma NormalizeIdempotent(h: Host, v: string)
    requires Lawful(h)
    ensures NormalizeEnvironment(h, NormalizeEnvironment(h, v)) == NormalizeEnvironment(h, v)
  {
    StripIdempotent(h, v);
  }

  // ---------------------------------------------------------------- the assumptions can be met

  function LowerChar(c: char): char {
    if 'A' <= c <= 'Z' then c - 'A' + 'a' else c
  }

  function AsciiLower(s: string): string {
    seq(|s|, i requires 0 <= i < |s| => LowerChar(s[i]))
  }

  const ASCII_HOST: Host := Host(_ => 0, s => AsciiLower(s), c => c == ' ', _ => None, n => Some(Finite(n)))

  lemma AsciiHostIsLawful()
    ensures Lawful(ASCII_HOST)
  {
    forall s: string ensures ASCII_HOST.lower(ASCII_HOST.lower(s)) == ASCII_HOST.lower(s) {
      assert AsciiLower(AsciiLower(s)) == AsciiLower(s);
    }
    forall s: string | Strip(ASCII_HOST, s) == s
      ensures Strip(ASCII_HOST, ASCII_HOST.lower(s)) == ASCII_HOST.lower(s)
    {
      StripLeftTrims(ASCII_HOST, s);
      StripRightTrims(ASCII_HOST, StripLeft(ASCII_HOST, s));
      StripLeftShorter(ASCII_HOST, s);
      assert StripLeft(ASCII_HOST, s) == s;
      assert |AsciiLower(s)| == |s|;
    }
  }

  lemma {:induction false} StripLeftShorter(h: Host, s: string)
    ensures |StripLeft(h, s)| <= |s|
    ensures |StripLeft(h, s)| == |s| ==> StripLeft(h, s) == s
  {
    if s != "" && h.isSpace(s[0]) { StripLeftShorter(h, s[1..]); }
  }
}
