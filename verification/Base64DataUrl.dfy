/** Base64 data URLs, scanned run by run (apps/server/src/imageMime.ts: `parseBase64DataUrl`). */
module Base64DataUrl {
  import opened Collections
  import opened Outcomes
  import opened Text

  predicate IsBase64Char(c: char) {
    IsBase64(c) || c == '='
  }

  predicate IsBase64Whitespace(c: char) {
    c == '\r' || c == '\n' || c == ' '
  }

  datatype Parsed = Parsed(mimeType: string, base64: string)

  // ---------------------------------------------------------------- the simple filter

  /** The payload without carriage returns, line feeds and spaces. */
  function Strip(s: string): string {
    if s == "" then ""
    else
      var before := Strip(s[..|s| - 1]);
      if IsBase64Whitespace(s[|s| - 1]) then before else before + [s[|s| - 1]]
  }

  /** Non-empty, whole groups of four, at most two padding characters, all at the end. */
  predicate WellPadded(s: string) {
    s != "" && |s| % 4 == 0 && (PaddedBy(s, 0) || PaddedBy(s, 1) || PaddedBy(s, 2))
  }

  // ---------------------------------------------------------------- the header

  /** The pieces between semicolons, trimmed, without the empty ones. */
  function HeaderParts(header: string): seq<string>
    decreases |header|
  {
    var i := IndexOf(header, ';');
    var part := Trim(header[..i]);
    var rest := if i < |header| then HeaderParts(header[i + 1..]) else [];
    if part != "" then [part] + rest else rest
  }

  /** The first part, when there is a later one and the last is `base64`. */
  function MediaType(lower: string -> string, parts: seq<string>): Option<string> {
    if |parts| < 2 || lower(parts[|parts| - 1]) != "base64" || lower(parts[0]) == "" then None
    else Some(lower(parts[0]))
  }

  function HeaderMime(lower: string -> string, header: string): Option<string> {
    MediaType(lower, HeaderParts(header))
  }

  /** The media type and the payload of a well-formed header; `lower` is `toLowerCase`. */
  function Header(lower: string -> string, dataUrl: string): Option<(string, string)> {
    HeaderOf(lower, Trim(dataUrl))
  }

  function HeaderOf(lower: string -> string, trimmed: string): Option<(string, string)> {
    if lower(if |trimmed| < 5 then trimmed else trimmed[..5]) != "data:" then None
    else
      var comma := IndexOf(trimmed, ',');
      if comma == |trimmed| || comma <= 5 then None
      else
        var mimeType := HeaderMime(lower, trimmed[5..comma]);
        if mimeType.None? then None else Some((mimeType.value, trimmed[comma + 1..]))
  }

  // ---------------------------------------------------------------- what a header says

  function JoinSemi(pieces: seq<string>): string {
    if pieces == [] then ""
    else if |pieces| == 1 then pieces[0]
    else pieces[0] + ";" + JoinSemi(pieces[1..])
  }

  ghost predicate NoSemi(pieces: seq<string>) {
    forall piece | piece in pieces :: ';' !in piece
  }

  function Piece(piece: string): Option<string> {
    if Trim(piece) == "" then None else Some(Trim(piece))
  }

  lemma {:induction false} PartsOfPieces(pieces: seq<string>)
    requires pieces != [] && NoSemi(pieces)
    ensures HeaderParts(JoinSemi(pieces)) == Pick(Piece, pieces)
  {
    var first := pieces[0];
    var all := JoinSemi(pieces);
    if |pieces| == 1 {
      PartsOne(first);
      assert Pick(Piece, pieces[1..]) == [];
    } else {
      PartsOfPieces(pieces[1..]);
      PartsFirst(all, first, JoinSemi(pieces[1..]));
    }
  }

  lemma PartsOne(piece: string)
    requires ';' !in piece
    ensures HeaderParts(piece) == if Piece(piece).None? then [] else [Piece(piece).value]
  {
    assert IndexOf(piece, ';') == |piece| && piece[..|piece|] == piece;
  }

  lemma PartsFirst(all: string, first: string, rest: string)
    requires ';' !in first && all == first + ";" + rest
    ensures HeaderParts(all) == if Piece(first).None? then HeaderParts(rest) else [Piece(first).value] + HeaderParts(rest)
  {
    assert all == first + [';'] + rest;
    IndexAfter(first, ';', rest);
    assert all[..|first|] == first && all[|first| + 1..] == rest;
  }

  lemma {:induction false} PiecesOf(header: string) returns (pieces: seq<string>)
    ensures pieces != [] && NoSemi(pieces) && header == JoinSemi(pieces)
    decreases |header|
  {
    var i := IndexOf(header, ';');
    if i == |header| {
      pieces := [header];
      assert header[..i] == header;
    } else {
      var rest := PiecesOf(header[i + 1..]);
      pieces := [header[..i]] + rest;
      assert pieces[1..] == rest;
      assert header == header[..i] + ";" + header[i + 1..];
    }
  }

  /** Between semicolons the first piece that is not blank is the media type, and a later
      one, the last that is not blank, is `base64`. */
  ghost predicate PiecesSay(lower: string -> string, pieces: seq<string>, i: nat, j: nat, mimeType: string) {
    && i < j < |pieces|
    && (forall k | 0 <= k < i || j < k < |pieces| :: Piece(pieces[k]).None?)
    && Piece(pieces[i]).Some? && lower(Piece(pieces[i]).value) == mimeType != ""
    && Piece(pieces[j]).Some? && lower(Piece(pieces[j]).value) == "base64"
  }

  ghost predicate HeaderSays(lower: string -> string, header: string, mimeType: string) {
    exists pieces, i: nat, j: nat ::
      header == JoinSemi(pieces) && NoSemi(pieces) && PiecesSay(lower, pieces, i, j, mimeType)
  }

  lemma PickedSay(lower: string -> string, pieces: seq<string>, mimeType: string)
    requires MediaType(lower, Pick(Piece, pieces)) == Some(mimeType)
    ensures exists i: nat, j: nat :: PiecesSay(lower, pieces, i, j, mimeType)
  {
    var at := PickMeans(Piece, pieces);
    var i, j := SelectedEnds(Piece, pieces, Pick(Piece, pieces), at);
    assert PiecesSay(lower, pieces, i, j, mimeType);
  }

  lemma SaidPicked(lower: string -> string, pieces: seq<string>, i: nat, j: nat, mimeType: string)
    requires PiecesSay(lower, pieces, i, j, mimeType)
    ensures MediaType(lower, Pick(Piece, pieces)) == Some(mimeType)
  {
    var at := PickMeans(Piece, pieces);
    EndsSelected(Piece, pieces, Pick(Piece, pieces), at, i, j);
  }

  lemma HeaderMeans(lower: string -> string, header: string, mimeType: string)
    ensures HeaderMime(lower, header) == Some(mimeType) <==> HeaderSays(lower, header, mimeType)
  {
    if HeaderMime(lower, header) == Some(mimeType) {
      var pieces := PiecesOf(header);
      PartsOfPieces(pieces);
      PickedSay(lower, pieces, mimeType);
    }
    if HeaderSays(lower, header, mimeType) {
      var pieces, i: nat, j: nat :|
        header == JoinSemi(pieces) && NoSemi(pieces) && PiecesSay(lower, pieces, i, j, mimeType);
      PartsOfPieces(pieces);
      SaidPicked(lower, pieces, i, j, mimeType);
    }
  }

  ghost predicate Divided(url: string, scheme: string, header: string, payload: string) {
    url == scheme + header + "," + payload && |scheme| == 5 && header != "" && ',' !in scheme + header
  }

  ghost predicate DividedSays(lower: string -> string, url: string, scheme: string, header: string,
                              mimeType: string, payload: string) {
    Divided(url, scheme, header, payload) && lower(scheme) == "data:" && HeaderSays(lower, header, mimeType)
  }

  /** A scheme of five characters, the header up to the first comma, and the payload. */
  ghost predicate UrlSays(lower: string -> string, url: string, mimeType: string, payload: string) {
    exists scheme, header :: DividedSays(lower, url, scheme, header, mimeType, payload)
  }

  lemma AtComma(url: string, head: string, payload: string)
    requires ',' !in head && url == head + "," + payload
    ensures IndexOf(url, ',') == |head| < |url| && url[..|head|] == head && url[|head| + 1..] == payload
  {
    assert url == head + [','] + payload;
    IndexAfter(head, ',', payload);
  }

  lemma Divides(url: string, comma: nat, scheme: string, header: string)
    requires comma == IndexOf(url, ',') && 5 < comma < |url| && scheme == url[..5] && header == url[5..comma]
    ensures Divided(url, scheme, header, url[comma + 1..])
  {
    assert scheme + header == url[..comma];
    assert url == url[..comma] + "," + url[comma + 1..];
  }

  lemma DividedOnce(url: string, scheme: string, header: string, payload: string)
    requires Divided(url, scheme, header, payload)
    ensures var comma := IndexOf(url, ',');
            5 < comma < |url| && scheme == url[..5] && header == url[5..comma] && payload == url[comma + 1..]
  {
    var head := scheme + header;
    AtComma(url, head, payload);
    assert head[..5] == scheme && head[5..] == header;
    assert url[..5] == head[..5] && url[5..|head|] == head[5..];
  }

  lemma HeaderSplit(lower: string -> string, url: string, mimeType: string, payload: string) returns (header: string)
    requires HeaderOf(lower, url) == Some((mimeType, payload))
    ensures lower(url[..5]) == "data:" && HeaderMime(lower, header) == Some(mimeType)
    ensures Divided(url, url[..5], header, payload)
  {
    var comma := IndexOf(url, ',');
    header := url[5..comma];
    Divides(url, comma, url[..5], header);
  }

  lemma HeaderJoined(lower: string -> string, url: string, comma: nat, mimeType: string)
    requires comma == IndexOf(url, ',') && 5 < comma < |url| && lower(url[..5]) == "data:"
    requires HeaderMime(lower, url[5..comma]) == Some(mimeType)
    ensures HeaderOf(lower, url) == Some((mimeType, url[comma + 1..]))
  {
  }

  lemma HeaderSaysUrl(lower: string -> string, url: string, mimeType: string, payload: string)
    requires HeaderOf(lower, url) == Some((mimeType, payload))
    ensures UrlSays(lower, url, mimeType, payload)
  {
    var header := HeaderSplit(lower, url, mimeType, payload);
    HeaderMeans(lower, header, mimeType);
    UrlSaid(lower, url, url[..5], header, mimeType, payload);
  }

  lemma UrlSaid(lower: string -> string, url: string, scheme: string, header: string, mimeType: string, payload: string)
    requires Divided(url, scheme, header, payload) && lower(scheme) == "data:" && HeaderSays(lower, header, mimeType)
    ensures UrlSays(lower, url, mimeType, payload)
  {
    assert DividedSays(lower, url, scheme, header, mimeType, payload);
  }

  lemma UrlSaysHeader(lower: string -> string, url: string, mimeType: string, payload: string)
    requires UrlSays(lower, url, mimeType, payload)
    ensures HeaderOf(lower, url) == Some((mimeType, payload))
  {
    var scheme, header :| DividedSays(lower, url, scheme, header, mimeType, payload);
    DividedOnce(url, scheme, header, payload);
    HeaderMeans(lower, header, mimeType);
    HeaderJoined(lower, url, IndexOf(url, ','), mimeType);
  }

  /** The header is well formed exactly when the trimmed text says a media type and a payload
      in that way, and then it is these. */
  lemma UrlMeans(lower: string -> string, dataUrl: string, mimeType: string, payload: string)
    ensures Header(lower, dataUrl) == Some((mimeType, payload)) <==> UrlSays(lower, Trim(dataUrl), mimeType, payload)
  {
    var url := Trim(dataUrl);
    if HeaderOf(lower, url) == Some((mimeType, payload)) {
      HeaderSaysUrl(lower, url, mimeType, payload);
    }
    if UrlSays(lower, url, mimeType, payload) {
      UrlSaysHeader(lower, url, mimeType, payload);
    }
  }

  // ---------------------------------------------------------------- the scan

  function Join(runs: seq<string>): string {
    if runs == [] then "" else Join(runs[..|runs| - 1]) + runs[|runs| - 1]
  }

  predicate Scannable(s: string) {
    forall i | 0 <= i < |s| :: IsBase64Char(s[i]) || IsBase64Whitespace(s[i])
  }

  function NotSkipped(c: char): Option<char> {
    if c in "\r\n " then None else Some(c)
  }

  /** Stripping takes out the carriage returns, line feeds and spaces, and nothing else. */
  lemma {:induction false} StripMeans(s: string) returns (at: seq<nat>)
    ensures Selected(NotSkipped, s, Strip(s), at)
  {
    at := [];
    if s != "" {
      var n := |s| - 1;
      at := StripMeans(s[..n]);
      SelectedNext(NotSkipped, s, Strip(s[..n]), at);
      if !IsBase64Whitespace(s[n]) {
        at := at + [n];
      }
    }
  }

  lemma StripMore(s: string, i: nat)
    requires i < |s|
    ensures Strip(s[..i + 1]) == Strip(s[..i]) + if IsBase64Whitespace(s[i]) then "" else [s[i]]
  {
    assert s[..i + 1][..i] == s[..i];
    assert Strip(s[..i]) + "" == Strip(s[..i]);
  }

  lemma JoinMore(runs: seq<string>, run: string)
    ensures Join(runs + [run]) == Join(runs) + run
  {
    assert (runs + [run])[..|runs|] == runs;
  }

  /** Slices of the payload between whitespace, joined: the stripped payload, or nothing if
      some character is neither. */
  method ScanRuns(payload: string) returns (r: Option<string>)
    ensures r.Some? <==> Scannable(payload)
    ensures r.Some? ==> r.value == Strip(payload)
  {
    var runs: seq<string> := [];
    var runStart := -1;
    var index := 0;
    while index < |payload|
      invariant 0 <= index <= |payload| && -1 <= runStart < index
      invariant Scannable(payload[..index])
      invariant Strip(payload[..index]) == Join(runs) + if runStart == -1 then "" else payload[runStart..index]
    {
      StripMore(payload, index);
      assert payload[..index + 1] == payload[..index] + [payload[index]];
      if IsBase64Char(payload[index]) {
        if runStart == -1 {
          runStart := index;
        }
        assert payload[runStart..index + 1] == payload[runStart..index] + [payload[index]];
        index := index + 1;
        continue;
      }
      if !IsBase64Whitespace(payload[index]) {
        return None;
      }
      if runStart != -1 {
        JoinMore(runs, payload[runStart..index]);
        runs := runs + [payload[runStart..index]];
        runStart := -1;
      }
      index := index + 1;
    }
    assert payload[..index] == payload;
    if runStart != -1 {
      JoinMore(runs, payload[runStart..]);
      runs := runs + [payload[runStart..]];
    }
    assert |runs| == 1 ==> Join(runs) == runs[0] by { JoinOne(runs); }
    r := Some(if |runs| == 1 then runs[0] else Join(runs));
  }

  lemma JoinOne(runs: seq<string>)
    ensures |runs| == 1 ==> Join(runs) == runs[0]
  {
    if |runs| == 1 {
      JoinMore([], runs[0]);
      assert runs == [] + [runs[0]];
    }
  }


  predicate AllBase64(s: string) {
    forall i | 0 <= i < |s| :: IsBase64Char(s[i])
  }

  lemma AllBase64More(s: string, c: char)
    ensures AllBase64(s + [c]) <==> AllBase64(s) && IsBase64Char(c)
  {
    assert forall i | 0 <= i < |s| :: (s + [c])[i] == s[i];
    assert (s + [c])[|s|] == c;
  }

  lemma ScannableMore(s: string, c: char)
    ensures Scannable(s + [c]) <==> Scannable(s) && (IsBase64Char(c) || IsBase64Whitespace(c))
  {
    assert forall i | 0 <= i < |s| :: (s + [c])[i] == s[i];
    assert (s + [c])[|s|] == c;
  }

  /** The scan meets no bad character exactly when the stripped payload has none. */
  lemma {:induction false} ScannableStripped(s: string)
    ensures Scannable(s) <==> AllBase64(Strip(s))
  {
    if s != "" {
      var n := |s| - 1;
      ScannableStripped(s[..n]);
      ScannableMore(s[..n], s[n]);
      AllBase64More(Strip(s[..n]), s[n]);
      assert s == s[..n] + [s[n]];
    }
  }

  lemma PaddedAll(s: string)
    requires PaddedBy(s, 0) || PaddedBy(s, 1) || PaddedBy(s, 2)
    ensures AllBase64(s)
  {
    assert IsBase64Char('=');
  }

  /** The check of the first `=` and of everything after it. */
  method CheckPadding(base64: string) returns (ok: bool)
    requires AllBase64(base64)
    ensures ok <==> PaddedBy(base64, 0) || PaddedBy(base64, 1) || PaddedBy(base64, 2)
  {
    var firstPad := IndexOf(base64, '=');
    if firstPad < |base64| {
      assert !PaddedBy(base64, 0);
      assert forall i | 0 <= i < firstPad :: base64[i] == base64[..firstPad][i];
      if |base64| - firstPad > 2 {
        return false;
      }
      var index := firstPad;
      while index < |base64|
        invariant firstPad <= index <= |base64|
        invariant forall i | firstPad <= i < index :: base64[i] == '='
      {
        if base64[index] != '=' {
          assert index == |base64| - 1 && firstPad == |base64| - 2;
          return false;
        }
        index := index + 1;
      }
      assert PaddedBy(base64, |base64| - firstPad);
    }
    assert firstPad == |base64| ==> base64[..firstPad] == base64;
    ok := true;
  }

  lemma BadNotPadded(s: string)
    requires !AllBase64(s)
    ensures !WellPadded(s)
  {
    if WellPadded(s) {
      PaddedAll(s);
    }
  }

  /** Given a well-formed header, a payload is accepted exactly when stripping it leaves a
      well-padded string, and that string is returned. */
  method ParseBase64DataUrl(lower: string -> string, dataUrl: string) returns (r: Option<Parsed>)
    ensures r.Some? <==> Header(lower, dataUrl).Some? && WellPadded(Strip(Header(lower, dataUrl).value.1))
    ensures r.Some? ==> r.value == Parsed(Header(lower, dataUrl).value.0, Strip(Header(lower, dataUrl).value.1))
  {
    var header := Header(lower, dataUrl);
    if header.None? {
      return None;
    }
    var (mimeType, payload) := header.value;
    ScannableStripped(payload);
    var scanned := ScanRuns(payload);
    if scanned.None? {
      BadNotPadded(Strip(payload));
      return None;
    }
    var base64 := scanned.value;
    if |base64| == 0 || |base64| % 4 != 0 {
      return None;
    }
    var padded := CheckPadding(base64);
    r := if padded then Some(Parsed(mimeType, base64)) else None;
  }
}
