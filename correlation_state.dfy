/**
 * The Duo correlation state: `nonce + "|" + encodeURIComponent(username)` on the way
 * out, and on the way back the second '|'-separated segment, URL-decoded, with the
 * caller's username as the fallback when that segment is missing or empty.
 */
module CorrelationState {
  import opened Outcomes
  import PercentEncoding

  const Separator: char := '|'

  /** String.prototype.split with a one-character separator: "" gives [""], "a|" gives ["a", ""]. */
  function Split(s: string, sep: char): (parts: seq<string>)
    ensures |parts| >= 1
  {
    if s == [] then [[]]
    else
      var rest := Split(s[1..], sep);
      if s[0] == sep then [[]] + rest else [[s[0]] + rest[0]] + rest[1..]
  }

  /** Array.prototype.join with a one-character separator. */
  function Join(parts: seq<string>, sep: char): string
    requires |parts| >= 1
  {
    if |parts| == 1 then parts[0] else parts[0] + [sep] + Join(parts[1..], sep)
  }

  /** The state handed to the Duo client by initiateDuoAuth. */
  function EncodeState(nonce: string, username: string): (s: string)
    ensures |s| > |nonce| && s[..|nonce|] == nonce && s[|nonce|] == Separator
    ensures s[|nonce| + 1..] == PercentEncoding.Encode(username)
  {
    nonce + [Separator] + PercentEncoding.Encode(username)
  }

  /**
   * The username verifyDuoResponse works with: segment 1 of the state, decoded, when it is
   * present and non-empty (JavaScript truthiness), else the fallback (which may itself be
   * undefined). A malformed escape makes decodeURIComponent throw URIError.
   */
  function StateUsername(state: string, fallback: Option<string>): (r: Result<Option<string>>)
    ensures r.Err? ==> r.error == UriError
  {
    var parts := Split(state, Separator);
    if |parts| >= 2 && parts[1] != [] then
      match PercentEncoding.Decode(parts[1])
      case Some(u) => Ok(Some(u))
      case None => Err(UriError)
    else Ok(fallback)
  }

  // ---------------------------------------------------------------------------
  // Properties of Split

  /** No part of a split contains the separator, and joining the parts gives back the string. */
  lemma {:induction false} SplitJoin(s: string, sep: char)
    ensures forall i :: 0 <= i < |Split(s, sep)| ==> sep !in Split(s, sep)[i]
    ensures Join(Split(s, sep), sep) == s
  {
    if s != [] {
      SplitJoin(s[1..], sep);
      var rest := Split(s[1..], sep);
      if s[0] == sep {
        assert Split(s, sep) == [[]] + rest;
        assert Split(s, sep)[1..] == rest;
        assert [] + [sep] + s[1..] == s;
      } else {
        var parts := Split(s, sep);
        assert parts[1..] == rest[1..];
        if |rest| == 1 {
          assert parts == [[s[0]] + s[1..]];
        } else {
          assert Join(rest, sep) == rest[0] + [sep] + Join(rest[1..], sep);
          assert Join(parts, sep) == [s[0]] + rest[0] + [sep] + Join(rest[1..], sep);
        }
      }
    }
  }

  /** A string without the separator splits into itself alone. */
  lemma {:induction false} SplitWithoutSeparator(s: string, sep: char)
    requires sep !in s
    ensures Split(s, sep) == [s]
  {
    if s != [] {
      SplitWithoutSeparator(s[1..], sep);
      assert [s[0]] + s[1..] == s;
    }
  }

  /** Splitting at the first separator: what precedes it is the first part, the rest splits on. */
  lemma {:induction false} SplitAtFirst(x: string, sep: char, y: string)
    requires sep !in x
    ensures Split(x + [sep] + y, sep) == [x] + Split(y, sep)
  {
    if x == [] {
      assert x + [sep] + y == [sep] + y;
      assert ([sep] + y)[1..] == y;
    } else {
      SplitAtFirst(x[1..], sep, y);
      assert (x + [sep] + y)[1..] == x[1..] + [sep] + y;
      assert [x[0]] + x[1..] == x;
    }
  }

  // ---------------------------------------------------------------------------
  // Properties of the state

  /** With a nonce free of '|', the state splits into exactly the nonce and the encoded username. */
  lemma EncodedStateSplits(nonce: string, username: string)
    requires Separator !in nonce
    ensures Split(EncodeState(nonce, username), Separator) == [nonce, PercentEncoding.Encode(username)]
  {
    var enc := PercentEncoding.Encode(username);
    SplitAtFirst(nonce, Separator, enc);
    PercentEncoding.EncodeHasNoPipe(username);
    SplitWithoutSeparator(enc, Separator);
  }

  /** The state built for a non-empty username gives that username back, whatever the fallback. */
  lemma StateRoundTrip(nonce: string, username: string, fallback: Option<string>)
    requires Separator !in nonce
    requires username != []
    ensures StateUsername(EncodeState(nonce, username), fallback) == Ok(Some(username))
  {
    EncodedStateSplits(nonce, username);
    PercentEncoding.EncodeEmpty(username);
    PercentEncoding.DecodeEncode(username);
  }

  /** For an empty username the encoded segment is empty, hence falsy, and the fallback is used. */
  lemma EmptyUsernameFallsBack(nonce: string, fallback: Option<string>)
    requires Separator !in nonce
    ensures StateUsername(EncodeState(nonce, []), fallback) == Ok(fallback)
  {
    EncodedStateSplits(nonce, []);
  }

  /** A state with no '|' at all has no segment 1: the fallback is used. */
  lemma MissingSegmentFallsBack(state: string, fallback: Option<string>)
    requires Separator !in state
    ensures StateUsername(state, fallback) == Ok(fallback)
  {
    SplitWithoutSeparator(state, Separator);
  }

  /** Only segment 1 matters: anything after a second '|' is ignored. */
  lemma LaterSegmentsIgnored(nonce: string, segment: string, tail: string, fallback: Option<string>)
    requires Separator !in nonce && Separator !in segment
    ensures StateUsername(nonce + [Separator] + segment + [Separator] + tail, fallback)
         == StateUsername(nonce + [Separator] + segment, fallback)
  {
    SplitAtFirst(nonce, Separator, segment + [Separator] + tail);
    assert nonce + [Separator] + segment + [Separator] + tail == nonce + [Separator] + (segment + [Separator] + tail);
    SplitAtFirst(segment, Separator, tail);
    SplitAtFirst(nonce, Separator, segment);
    SplitWithoutSeparator(segment, Separator);
  }
}
