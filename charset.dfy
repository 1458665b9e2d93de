/**
 * The character set the summariser decodes a fetched page with, read from
 * the response's `Content-Type` header.
 */
module Charset {
  import opened Common
  import opened JsText

  const DefaultCharset := "utf-8"
  const Marker := "charset="

  /** `s` contains `pat` at index `i`. */
  predicate At(s: string, pat: string, i: nat) {
    i + |pat| <= |s| && s[i..i + |pat|] == pat
  }

  /** `s.includes(pat)`: a case-sensitive search. */
  predicate Includes(s: string, pat: string) {
    exists i :: 0 <= i <= |s| - |pat| && At(s, pat, i)
  }

  /** The regular expression `/charset=([^;]+)/i` matches at index `i`: the
      marker in any ASCII case, followed by at least one character other
      than `;`. */
  predicate MatchesAt(s: string, i: nat) {
    i + |Marker| < |s| && Lower(s[i..i + |Marker|]) == Marker && s[i + |Marker|] != ';'
  }

  /** The leftmost index at or after `from` where the expression matches. */
  function FirstMatch(s: string, from: nat): (r: Option<nat>)
    ensures r.Some? ==> from <= r.value && MatchesAt(s, r.value)
    ensures r.Some? ==> forall k :: from <= k < r.value ==> !MatchesAt(s, k)
    ensures r.None? ==> forall k :: from <= k < |s| ==> !MatchesAt(s, k)
    decreases |s| - from
  {
    if from >= |s| then None
    else if MatchesAt(s, from) then Some(from)
    else FirstMatch(s, from + 1)
  }

  /** The captured group: the text after the marker up to the first `;`. */
  function Captured(s: string, i: nat): (v: string)
    requires MatchesAt(s, i)
    ensures v != [] && ';' !in v
    ensures v <= s[i + |Marker|..]
    ensures i + |Marker| + |v| < |s| ==> s[i + |Marker| + |v|] == ';'
  {
    PrefixBefore(s[i + |Marker|..], {';'})
  }

  /** The alias table: the Shift_JIS names map to one label, every other
      label is kept. */
  function NormalizeAlias(name: string): (r: string)
    ensures r !in {"shift_jis", "x-sjis", "windows-31j"}
    ensures name in {"shift_jis", "x-sjis", "windows-31j"} ==> r == "shift-jis"
    ensures name !in {"shift_jis", "x-sjis", "windows-31j"} ==> r == name
  {
    if name == "shift_jis" || name == "x-sjis" || name == "windows-31j" then "shift-jis"
    else name
  }

  /** The charset: `utf-8` unless the header contains `charset=` (in lower
      case) and the expression matches, in which case it is the lower-cased
      capture with the Shift_JIS aliases normalised. */
  function CharsetOf(contentType: Option<string>): (r: string)
    ensures r != [] && ';' !in r
  {
    if contentType.Some? && Includes(contentType.value, Marker) then
      var m := FirstMatch(contentType.value, 0);
      if m.Some? then NormalizeAlias(Lower(Captured(contentType.value, m.value)))
      else DefaultCharset
    else DefaultCharset
  }

  /** Without a header, or without the lower-case marker in it, the default holds. */
  lemma DefaultWithoutMarker(contentType: Option<string>)
    requires contentType.None? || !Includes(contentType.value, Marker)
    ensures CharsetOf(contentType) == DefaultCharset
  {
  }

  /** The presence test is case-sensitive even though the expression is not:
      a header spelling the marker only as `CHARSET=` (or any form without a
      lower-case `c`) keeps the default. */
  lemma UpperCaseMarkerIgnored(header: string)
    requires 'c' !in header
    ensures CharsetOf(Some(header)) == DefaultCharset
  {
    forall i | 0 <= i <= |header| - |Marker| ensures !At(header, Marker, i) {
      if i + |Marker| <= |header| {
        assert header[i..i + |Marker|][0] == header[i];
      }
    }
  }

  predicate NoUpper(s: string) {
    forall i :: 0 <= i < |s| ==> !('A' <= s[i] <= 'Z')
  }

  lemma LowerHasNoUpper(s: string)
    ensures NoUpper(Lower(s))
  {
  }

  /** The charset is in lower case and never one of the aliases. */
  lemma CharsetIsCanonical(contentType: Option<string>)
    ensures NoUpper(CharsetOf(contentType))
    ensures CharsetOf(contentType) !in {"shift_jis", "x-sjis", "windows-31j"}
  {
    if contentType.Some? && Includes(contentType.value, Marker) {
      var m := FirstMatch(contentType.value, 0);
      if m.Some? {
        LowerHasNoUpper(Captured(contentType.value, m.value));
      }
    }
  }

  /** Normalising a normalised label changes nothing. */
  lemma NormalizeAliasIdempotent(name: string)
    ensures NormalizeAlias(NormalizeAlias(name)) == NormalizeAlias(name)
  {
  }

  lemma {:induction false} LowerOfLower(s: string)
    requires NoUpper(s)
    ensures Lower(s) == s
  {
  }

  /** A header in which the expression first matches at a `charset=` written
      after some leading text yields the value that follows, lower-cased,
      with aliases normalised. */
  lemma CharsetAfterMediaType(mediaType: string, value: string, more: string)
    requires forall k :: 0 <= k < |mediaType| ==> !MatchesAt(mediaType + Marker + value + more, k)
    requires value != [] && ';' !in value
    requires more == [] || more[0] == ';'
    ensures CharsetOf(Some(mediaType + Marker + value + more)) == NormalizeAlias(Lower(value))
  {
    var s := mediaType + Marker + value + more;
    var n := |mediaType|;
    MarkerAfterMediaType(s, mediaType, value, more);
    FirstMatchFrom(s, 0, n);
    PrefixBeforeStops(value, more);
  }

  /** In particular a media type without the letter `c` holds no match, so a
      header such as `text/html; charset=...` yields its charset. */
  lemma CharsetAfterPlainMediaType(mediaType: string, value: string, more: string)
    requires forall i :: 0 <= i < |mediaType| ==> mediaType[i] != 'c' && mediaType[i] != 'C'
    requires value != [] && ';' !in value
    requires more == [] || more[0] == ';'
    ensures CharsetOf(Some(mediaType + Marker + value + more)) == NormalizeAlias(Lower(value))
  {
    var s := mediaType + Marker + value + more;
    assert s[..|mediaType|] == mediaType;
    NoMatchInMediaType(s, mediaType);
    CharsetAfterMediaType(mediaType, value, more);
  }

  /** For any header holding the lower-case marker, the charset is read at
      the first match of the case-insensitive expression, wherever the
      marker itself is: the value after it up to the first `;`, lower-cased,
      with aliases normalised. */
  lemma CharsetAtFirstMatch(h: string, i: nat, value: string, more: string)
    requires Includes(h, Marker)
    requires MatchesAt(h, i) && forall k :: 0 <= k < i ==> !MatchesAt(h, k)
    requires h[i + |Marker|..] == value + more
    requires ';' !in value && (more == [] || more[0] == ';')
    ensures value != []
    ensures CharsetOf(Some(h)) == NormalizeAlias(Lower(value))
  {
    FirstMatchFrom(h, 0, i);
    PrefixBeforeStops(value, more);
  }

  /** So an upper-case marker ahead of the lower-case one decides the
      charset, although only the lower-case one lets the expression run. */
  lemma EarlierMatchWins()
    ensures CharsetOf(Some("CHARSET=x; charset=y")) == "x"
  {
    var h := "CHARSET=x; charset=y";
    assert At(h, Marker, 11);
    assert MatchesAt(h, 0) by {
      assert h[..8] == "CHARSET=";
      assert Lower("CHARSET=") == Marker;
    }
    assert h[8..] == "x" + "; charset=y";
    CharsetAtFirstMatch(h, 0, "x", "; charset=y");
  }

  /** A header on which the expression matches nowhere keeps the default,
      whether or not it holds the marker. */
  lemma NoMatchDefault(h: string)
    requires forall k :: 0 <= k < |h| ==> !MatchesAt(h, k)
    ensures CharsetOf(Some(h)) == DefaultCharset
  {
  }

  /** In particular a marker with nothing after it, as in
      `text/html; charset=`, holds the marker but keeps `utf-8`. */
  lemma EmptyValueDefault(mediaType: string)
    requires forall i :: 0 <= i < |mediaType| ==> mediaType[i] != 'c' && mediaType[i] != 'C'
    ensures Includes(mediaType + Marker, Marker)
    ensures CharsetOf(Some(mediaType + Marker)) == DefaultCharset
  {
    var s := mediaType + Marker;
    assert s[|mediaType|..] == Marker;
    assert At(s, Marker, |mediaType|);
    assert s[..|mediaType|] == mediaType;
    NoMatchInMediaType(s, mediaType);
    NoMatchDefault(s);
  }

  /** The marker sits right after the media type, followed by the value. */
  lemma MarkerAfterMediaType(s: string, mediaType: string, value: string, more: string)
    requires s == mediaType + Marker + value + more
    requires value != [] && ';' !in value
    ensures At(s, Marker, |mediaType|) && Includes(s, Marker)
    ensures MatchesAt(s, |mediaType|)
    ensures s[|mediaType| + |Marker|..] == value + more
  {
    var n := |mediaType|;
    assert s[n..n + |Marker|] == Marker;
    assert At(s, Marker, n);
    assert s[n + |Marker|..] == value + more;
    assert s[n + |Marker|] == value[0] != ';';
    LowerOfLower(Marker);
  }

  /** No match starts inside a media type free of `c`. */
  lemma NoMatchInMediaType(s: string, mediaType: string)
    requires |mediaType| <= |s| && s[..|mediaType|] == mediaType
    requires forall i :: 0 <= i < |mediaType| ==> mediaType[i] != 'c' && mediaType[i] != 'C'
    ensures forall k :: 0 <= k < |mediaType| ==> !MatchesAt(s, k)
  {
    forall k | 0 <= k < |mediaType| ensures !MatchesAt(s, k) {
      assert s[k] == mediaType[k];
      if k + |Marker| <= |s| {
        assert s[k..k + |Marker|][0] == s[k];
        assert Lower(s[k..k + |Marker|])[0] == LowerChar(s[k]) != 'c';
      }
    }
  }

  lemma {:induction false} FirstMatchFrom(s: string, from: nat, n: nat)
    requires from <= n && MatchesAt(s, n)
    requires forall k :: from <= k < n ==> !MatchesAt(s, k)
    ensures FirstMatch(s, from) == Some(n)
    decreases n - from
  {
    if from < n {
      FirstMatchFrom(s, from + 1, n);
    }
  }

  lemma {:induction false} PrefixBeforeStops(value: string, more: string)
    requires ';' !in value
    requires more == [] || more[0] == ';'
    ensures PrefixBefore(value + more, {';'}) == value
  {
    if value == [] {
      assert value + more == more;
    } else {
      assert (value + more)[1..] == value[1..] + more;
      PrefixBeforeStops(value[1..], more);
    }
  }
}
