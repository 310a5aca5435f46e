/**
 `formatDataUrl` and `bufferFromDataUrl` (src/common/utils/document.js) and the two
 conversions the identity service makes with them.
 */
module DataUrls {
  import opened Wrappers
  import opened Sequences
  import opened Base64

  const DELIMITER := ";base64,"

  ghost predicate Occurs(s: string, sep: string, at: int) {
    0 <= at && at + |sep| <= |s| && s[at..at + |sep|] == sep
  }

  ghost predicate Contains(s: string, sep: string) {
    exists at :: Occurs(s, sep, at)
  }

  /** `s.indexOf(sep)` */
  function IndexOf(s: string, sep: string): (r: Option<nat>)
    ensures r.Some? ==> r.value + |sep| <= |s|
  {
    if |s| < |sep| then None
    else if s[..|sep|] == sep then Some(0)
    else
      match IndexOf(s[1..], sep)
      case Some(i) => Some(i + 1)
      case None => None
  }

  lemma OccursLater(s: string, sep: string, at: int)
    requires s != "" && at >= 0
    ensures Occurs(s, sep, at + 1) <==> Occurs(s[1..], sep, at)
  {
    if at + 1 + |sep| <= |s| {
      assert s[1..][at..at + |sep|] == s[at + 1..at + 1 + |sep|];
    }
  }

  /** The first occurrence, or none. */
  lemma {:induction false} IndexOfMeans(s: string, sep: string)
    requires sep != ""
    ensures IndexOf(s, sep).Some? ==> Occurs(s, sep, IndexOf(s, sep).value)
    ensures forall at :: Occurs(s, sep, at) ==> IndexOf(s, sep).Some? && IndexOf(s, sep).value <= at
  {
    if |s| >= |sep| && s[..|sep|] != sep {
      IndexOfMeans(s[1..], sep);
      forall at: nat { OccursLater(s, sep, at); }
      forall at | Occurs(s, sep, at)
        ensures at > 0 && Occurs(s[1..], sep, at - 1)
      {
        assert s[0..|sep|] == s[..|sep|];
      }
    } else if |s| >= |sep| {
      assert s[0..|sep|] == sep;
    }
  }

  /** `s.split(sep)` */
  function Split(s: string, sep: string): seq<string>
    requires sep != ""
    decreases |s|
  {
    match IndexOf(s, sep)
    case None => [s]
    case Some(i) => [s[..i]] + Split(s[i + |sep|..], sep)
  }

  /** A second argument of `formatDataUrl`: a buffer, or text that is already base64. */
  datatype Payload = Bytes(bytes: seq<byte>) | Text(text: string)

  /** `formatDataUrl(mime, buffer)`; `None` is its `null`. Empty text is falsy, an empty buffer is not. */
  function FormatDataUrl(mime: string, payload: Option<Payload>): Option<string> {
    match payload
    case None => None
    case Some(Bytes(bytes)) => Some(DataUrl(mime, Encode(bytes)))
    case Some(Text(text)) => if text == "" then None else Some(DataUrl(mime, text))
  }

  function DataUrl(mime: string, text: string): string {
    "data:" + mime + DELIMITER + text
  }

  function BufferFromDataUrl(url: string): Option<seq<byte>> {
    if url == "" then None
    else
      var parts := Split(url, DELIMITER);
      if |parts| != 2 then Some(Decode(url)) else Some(Decode(parts[1]))
  }

  lemma UrlCharacters(mime: string, text: string)
    requires ';' !in text
    ensures var url, place := DataUrl(mime, text), 5 + |mime|;
      url[..5] == "data:" && url[5..place] == mime && url[place..place + 8] == DELIMITER && url[place + 8..] == text &&
      url[place] == ';' && forall k :: 0 <= k < 5 || place < k < |url| ==> url[k] != ';'
  {
    var url, place := DataUrl(mime, text), 5 + |mime|;
    forall k | place + 8 <= k < |url|
      ensures url[k] != ';'
    {
      assert url[k] == text[k - place - 8];
    }
  }

  /**
   In `"data:" mime ";base64," text` the delimiter cannot overlap itself, so an occurrence
   elsewhere than at its own place lies inside `mime`.
   */
  lemma DelimiterPlaces(mime: string, text: string, at: int)
    requires ';' !in text && Occurs(DataUrl(mime, text), DELIMITER, at)
    ensures at == 5 + |mime| || (at >= 5 && Occurs(mime, DELIMITER, at - 5))
  {
    var url, place := DataUrl(mime, text), 5 + |mime|;
    UrlCharacters(mime, text);
    forall k | at <= k < at + 8
      ensures url[k] == DELIMITER[k - at]
    {
      assert url[at..at + 8][k - at] == url[k];
    }
    assert url[at] == ';';
    if at < place {
      assert at + 8 <= place;
      assert url[at..at + 8] == url[5..place][at - 5..at + 3];
    }
  }

  lemma NoDelimiter(text: string)
    requires ';' !in text
    ensures Split(text, DELIMITER) == [text]
  {
    IndexOfMeans(text, DELIMITER);
    forall at
      ensures !Occurs(text, DELIMITER, at)
    {
      assert 0 <= at && at + 8 <= |text| ==> text[at..at + 8][0] == text[at] != DELIMITER[0];
    }
  }

  lemma SplitPlain(mime: string, text: string)
    requires ';' !in text && !Contains(mime, DELIMITER)
    ensures Split(DataUrl(mime, text), DELIMITER) == ["data:" + mime, text]
  {
    var url, place := DataUrl(mime, text), 5 + |mime|;
    UrlCharacters(mime, text);
    assert Occurs(url, DELIMITER, place);
    IndexOfMeans(url, DELIMITER);
    var i := IndexOf(url, DELIMITER).value;
    DelimiterPlaces(mime, text, i);
    NoDelimiter(text);
    assert i == place && url[..i] == "data:" + mime && url[i + 8..] == text;
  }

  lemma SplitAtLeastTwo(s: string, at: nat)
    requires Occurs(s, DELIMITER, at)
    ensures |Split(s, DELIMITER)| >= 2
  {
    IndexOfMeans(s, DELIMITER);
    var i := IndexOf(s, DELIMITER).value;
    assert |Split(s[i + 8..], DELIMITER)| >= 1;
  }

  lemma SplitMore(mime: string, text: string)
    requires ';' !in text && Contains(mime, DELIMITER)
    ensures |Split(DataUrl(mime, text), DELIMITER)| > 2
  {
    var url, place := DataUrl(mime, text), 5 + |mime|;
    UrlCharacters(mime, text);
    var at :| Occurs(mime, DELIMITER, at);
    assert url[at + 5..at + 13] == url[5..place][at..at + 8];
    assert Occurs(url, DELIMITER, at + 5) && Occurs(url, DELIMITER, place);
    IndexOfMeans(url, DELIMITER);
    var i := IndexOf(url, DELIMITER).value;
    DelimiterPlaces(mime, text, i);
    TwoPlaces(url, i, place);
  }

  lemma TwoPlaces(s: string, i: nat, place: nat)
    requires IndexOf(s, DELIMITER) == Some(i) && i + 8 <= place && Occurs(s, DELIMITER, place)
    ensures |Split(s, DELIMITER)| > 2
  {
    var rest, k := s[i + 8..], place - i - 8;
    assert rest[k..k + 8] == s[place..place + 8];
    SplitAtLeastTwo(rest, k);
    assert Split(s, DELIMITER) == [s[..i]] + Split(rest, DELIMITER);
  }

  /** The URL splits in two, and at the right place, exactly when `mime` does not contain the delimiter. */
  lemma DataUrlSplits(mime: string, text: string)
    requires ';' !in text
    ensures |Split(DataUrl(mime, text), DELIMITER)| == 2 <==> !Contains(mime, DELIMITER)
    ensures !Contains(mime, DELIMITER) ==> Split(DataUrl(mime, text), DELIMITER) == ["data:" + mime, text]
  {
    if Contains(mime, DELIMITER) {
      SplitMore(mime, text);
    } else {
      SplitPlain(mime, text);
    }
  }

  /** A URL that does not split in two is decoded whole, which gives more bytes than went in. */
  lemma WholeUrlIsLonger(mime: string, text: string)
    ensures |Decode(DataUrl(mime, text))| > |Decode(text)|
  {
    FlatMapConcat(SextetsOf, "data:" + mime + DELIMITER, text);
    FlatMapConcat(SextetsOf, "data:" + mime, DELIMITER);
    FourSextets("data:", mime);
    FromSextetsLength(Scan(text));
    FromSextetsLength(Scan(DataUrl(mime, text)));
  }

  lemma FourSextets(head: string, tail: string)
    requires head == "data:"
    ensures |Scan(head + tail)| >= 4
  {
    FlatMapConcat(SextetsOf, head, tail);
    FlatMapConcat(SextetsOf, "da", "ta:");
    assert head == "da" + "ta:";
    assert "da"[1..] == "a" && "ta:"[1..] == "a:";
  }

  /** Bytes survive a data URL if and only if the mime type does not contain the delimiter. */
  lemma DataUrlRoundTrip(mime: string, bytes: seq<byte>)
    ensures FormatDataUrl(mime, Some(Bytes(bytes))).Some?
    ensures BufferFromDataUrl(FormatDataUrl(mime, Some(Bytes(bytes))).value) == Some(bytes) <==> !Contains(mime, DELIMITER)
  {
    DecodeEncode(bytes);
    DataUrlSplits(mime, Encode(bytes));
    WholeUrlIsLonger(mime, Encode(bytes));
  }

  // The identity service

  /** `loadDocuments`: the row's buffer, turned into text first, becomes a data URL. */
  function LoadContent(mime: string, buffer: seq<byte>): Option<string> {
    FormatDataUrl(mime, Some(Text(Encode(buffer))))
  }

  /** `createIdAttribute` and `editIdAttribute`: content, when there is any, becomes a buffer again. */
  function SaveContent(content: Option<string>): Option<seq<byte>> {
    if content.None? || content.value == "" then None else BufferFromDataUrl(content.value)
  }

  /** The stored buffer after loading a document and saving what was loaded; an absent buffer is left alone. */
  function Resaved(mime: string, buffer: seq<byte>): seq<byte> {
    match SaveContent(LoadContent(mime, buffer))
    case Some(bytes) => bytes
    case None => buffer
  }

  /** Loading a document and saving it again keeps its bytes, with the same one exception. */
  lemma ResaveKeepsBytes(mime: string, buffer: seq<byte>)
    ensures Resaved(mime, buffer) == buffer <==> buffer == [] || !Contains(mime, DELIMITER)
    ensures LoadContent(mime, buffer).None? <==> buffer == []
  {
    EncodeEmpty(buffer);
    DecodeEncode(buffer);
    DataUrlSplits(mime, Encode(buffer));
    WholeUrlIsLonger(mime, Encode(buffer));
  }
}
