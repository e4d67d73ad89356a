/** The CSRF cookie reader `getCSRFToken`: it scans the `;`-separated pieces of
    the document's cookie string for the first one that, once trimmed, starts
    with `csrftoken=`, and returns the URL-decoded rest of it. */
module CsrfCookie {
  import opened Outcomes
  import opened Text

  const Name: string := "csrftoken"

  /** What a piece must start with, the `=` included. */
  const Prefix: string := Name + "="

  /** A cookie piece that carries the CSRF token. */
  predicate Matches(piece: string)
  {
    Prefix <= Trim(piece)
  }

  /** The still-encoded value of a matching piece. */
  function RawValue(piece: string): (r: string)
    requires Matches(piece)
    ensures Prefix + r == Trim(piece)
  {
    Trim(piece)[|Prefix|..]
  }

  /** `decodeURIComponent(text)`, where `decode` returns None when it throws. */
  function Decoded(text: string, decode: string -> Option<string>): (r: Outcome<string>)
    ensures r.Threw? <==> decode(text).None?
    ensures r.Threw? ==> r.error == UriError
    ensures r.Done? ==> decode(text) == Some(r.value)
  {
    match decode(text)
    case None => Threw(UriError)
    case Some(v) => Done(v)
  }

  /** The index of the first matching piece, if there is one. */
  function FirstMatch(pieces: seq<string>): (r: Option<nat>)
    ensures r.Some? ==> r.value < |pieces| && Matches(pieces[r.value])
    ensures r.Some? ==> forall j :: 0 <= j < r.value ==> !Matches(pieces[j])
    ensures r.None? ==> forall j :: 0 <= j < |pieces| ==> !Matches(pieces[j])
  {
    if |pieces| == 0 then None
    else if Matches(pieces[0]) then Some(0)
    else
      match FirstMatch(pieces[1..])
      case None => None
      case Some(k) => Some(k + 1)
  }

  /** What `getCSRFToken` returns for the cookie string `cookie`. It throws
      MissingCsrfCookie exactly when no piece matches; an empty cookie string
      is the case of a single empty piece. */
  function CsrfToken(cookie: string, decode: string -> Option<string>): (r: Outcome<string>)
    ensures r == Threw(MissingCsrfCookie) <==>
              forall k :: 0 <= k < |Split(cookie, ';')| ==> !Matches(Split(cookie, ';')[k])
  {
    if cookie == "" then Threw(MissingCsrfCookie)
    else
      var pieces := Split(cookie, ';');
      match FirstMatch(pieces)
      case None => Threw(MissingCsrfCookie)
      case Some(i) =>
        var d := Decoded(RawValue(pieces[i]), decode);
        assert d != Threw(MissingCsrfCookie);
        d
  }

  /** `getCSRFToken` with `document.cookie` passed in as `documentCookie`. */
  method GetCsrfToken(documentCookie: string, decode: string -> Option<string>) returns (r: Outcome<string>)
    ensures r == CsrfToken(documentCookie, decode)
  {
    var cookieValue: Option<string> := None;
    if documentCookie != "" {
      var cookies := Split(documentCookie, ';');
      var i := 0;
      while i < |cookies|
        invariant 0 <= i <= |cookies|
        invariant forall j :: 0 <= j < i ==> !Matches(cookies[j])
      {
        var cookie := Trim(cookies[i]);
        SubstringPrefixTest(cookie, Prefix);
        if Substring(cookie, 0, |Name| + 1) == Name + "=" {
          SubstringAfterPrefix(cookie, Prefix);
          FirstMatchAt(cookies, i);
          var decoded := decode(Substring(cookie, |Name| + 1, |cookie|));
          if decoded.None? {
            return Threw(UriError);
          }
          cookieValue := Some(decoded.value);
          break;
        }
        i := i + 1;
      }
    }
    if cookieValue == None {
      return Threw(MissingCsrfCookie);
    }
    return Done(cookieValue.value);
  }

  lemma FirstMatchAt(pieces: seq<string>, i: nat)
    requires i < |pieces| && Matches(pieces[i])
    requires forall j :: 0 <= j < i ==> !Matches(pieces[j])
    ensures FirstMatch(pieces) == Some(i)
  {
  }

  // ------------------------------------------------------------ properties

  /** The token comes from the first matching piece: whatever follows it is ignored. */
  lemma FirstMatchingPieceWins(cookie: string, decode: string -> Option<string>, i: nat)
    requires i < |Split(cookie, ';')| && Matches(Split(cookie, ';')[i])
    requires forall j :: 0 <= j < i ==> !Matches(Split(cookie, ';')[j])
    ensures CsrfToken(cookie, decode) == Decoded(RawValue(Split(cookie, ';')[i]), decode)
  {
    FirstMatchAt(Split(cookie, ';'), i);
  }

  /** Anything after a matching piece does not change the result. */
  lemma LaterPiecesIgnored(piece: string, rest: string, decode: string -> Option<string>)
    requires ';' !in piece && Matches(piece)
    ensures CsrfToken(piece + ";" + rest, decode) == Decoded(RawValue(piece), decode)
  {
    SplitAtFirstSeparator(piece, rest, ';');
    var pieces := Split(piece + ";" + rest, ';');
    assert pieces[0] == piece;
    FirstMatchingPieceWins(piece + ";" + rest, decode, 0);
  }

  /** A piece that does not match is skipped: the result is that of the rest
      of the cookie string, an empty rest giving MissingCsrfCookie. */
  lemma NonMatchingPieceSkipped(piece: string, rest: string, decode: string -> Option<string>)
    requires ';' !in piece && !Matches(piece)
    ensures CsrfToken(piece + ";" + rest, decode) == CsrfToken(rest, decode)
  {
    var cookie := piece + ";" + rest;
    SplitAtFirstSeparator(piece, rest, ';');
    var pieces := Split(cookie, ';');
    var tail := Split(rest, ';');
    assert pieces == [piece] + tail;
    assert pieces[1..] == tail;
    if rest == "" {
      assert tail == [""];
      assert Trim("") == "";
    } else {
      match FirstMatch(tail)
      case None =>
        assert forall k :: 0 <= k < |pieces| ==> !Matches(pieces[k]) by {
          forall k | 0 <= k < |pieces| ensures !Matches(pieces[k]) {
            if k > 0 { assert pieces[k] == tail[k - 1]; }
          }
        }
      case Some(m) =>
        assert pieces[m + 1] == tail[m];
        FirstMatchingPieceWins(cookie, decode, m + 1);
    }
  }

  /** A cookie string of one piece yields that piece's value when it matches,
      and MissingCsrfCookie otherwise. */
  lemma SinglePiece(piece: string, decode: string -> Option<string>)
    requires ';' !in piece
    ensures CsrfToken(piece, decode) ==
              if Matches(piece) then Decoded(RawValue(piece), decode) else Threw(MissingCsrfCookie)
  {
    SplitWithoutSeparator(piece, ';');
    if Matches(piece) {
      FirstMatchingPieceWins(piece, decode, 0);
    }
  }

  /** Whitespace around a piece does not matter: `  csrftoken=v ` carries `v`. */
  lemma PaddedPieceMatches(lead: string, value: string, trail: string)
    requires AllWhitespace(lead) && AllWhitespace(trail)
    requires value == [] || !IsWhitespace(value[|value| - 1])
    ensures Matches(lead + Prefix + value + trail)
    ensures RawValue(lead + Prefix + value + trail) == value
  {
    var core := Prefix + value;
    assert core[0] == 'c';
    assert core[|core| - 1] == if value == [] then '=' else value[|value| - 1];
    assert lead + Prefix + value + trail == lead + core + trail;
    TrimPadded(lead, core, trail);
  }

  /** A piece named anything other than `csrftoken` never matches, since the
      whole prefix, `=` included, is compared from the start: `xcsrftoken=...`
      and `csrftoken2=...` are both rejected. */
  lemma OtherNamesNeverMatch(name: string, value: string)
    requires name != Name && '=' !in name
    ensures !(Prefix <= name + "=" + value)
  {
    var s := name + "=" + value;
    // an index below |Prefix| at which `s` and the prefix differ
    var k: nat;
    if |name| > |Name| {
      k := |Name|;            // `name` would have to hold the `=` ending the prefix
      assert s[k] == name[k];
    } else if |name| < |Name| {
      k := |name|;            // the `=` after `name` comes too early
      assert s[k] == '=';
    } else {
      k :| k < |Name| && name[k] != Name[k];
      assert s[k] == name[k];
    }
    assert k < |Prefix| && s[k] != Prefix[k];
  }

  /** The piece `csrftoken=` with an empty value yields the decoded empty
      string; it does not throw MissingCsrfCookie. */
  lemma EmptyValueIsNotMissing(decode: string -> Option<string>)
    ensures CsrfToken(Prefix, decode) == Decoded("", decode)
    ensures CsrfToken(Prefix, decode) != Threw(MissingCsrfCookie)
  {
    PaddedPieceMatches("", "", "");
    assert "" + Prefix + "" + "" == Prefix;
    assert ';' !in Prefix;
    SinglePiece(Prefix, decode);
  }

  /** With a `decode` that maps `""` to itself, the piece `csrftoken=` yields
      the empty string. */
  lemma EmptyValueYieldsEmptyString(decode: string -> Option<string>)
    requires decode("") == Some("")
    ensures CsrfToken(Prefix, decode) == Done("")
  {
    EmptyValueIsNotMissing(decode);
  }
}
