/** The replay table of packages/har-remix/src/archive-server.ts: an
    `ArchiveServer` turns the entries of an HTTP archive (HAR) into canned
    responses keyed by a delegate-chosen key, and answers lookups by key.
    The delegate's hooks and the byte-level libraries (gzip, `Buffer`
    decoding and encoding, the mime charset table) are parameters. */
module HarRemix {
  import opened Options
  import Decimal

  newtype byte = x: int | 0 <= x < 256

  type Bytes = seq<byte>

  // ---------------------------------------------------------------------------
  // Archive entries and responses.

  /** `entry.response.content`; an absent attribute is `None`. */
  datatype Content = Content(text: Option<string>, encoding: Option<string>, mimeType: string, compression: Option<int>)

  datatype HarResponse = HarResponse(status: int, content: Option<Content>)

  datatype HarRequest = HarRequest(requestMethod: string, url: string)

  /** One archive entry. */
  datatype Entry = Entry(request: HarRequest, response: HarResponse)

  /** `har.log.entries` */
  datatype Archive = Archive(entries: seq<Entry>)

  /** A canned response; `body` is `undefined` (`None`) when the entry had no text. */
  datatype Response = Response(statusCode: int, headers: map<string, string>, body: Option<Bytes>)

  /** The `ServerDelegate` hooks the table uses; an optional hook that is not
      provided is `None`. */
  datatype Delegate = Delegate(
    keyForArchiveEntry: Entry -> Option<string>,
    textFor: Option<(Entry, string, string) -> string>,
    finalizeResponse: Option<(Entry, string, Response) -> Response>,
    responseFor: Option<(Entry, string) -> Option<Response>>)

  /** The foreign byte-level operations. */
  datatype Codecs = Codecs(
    gzip: Bytes -> Bytes,                      // gzipSync(body, { level: 9 })
    decode: (string, Option<string>) -> Bytes, // new Buffer(text, encoding)
    bufferToString: Bytes -> string,           // buffer.toString()
    encodeUtf8: string -> Bytes,               // new Buffer(text)
    charset: string -> Option<string>)         // charset(mimeType); false is None

  const ContentLength: string := "Content-Length"
  const ContentType: string := "Content-Type"
  const ContentEncoding: string := "Content-Encoding"

  // ---------------------------------------------------------------------------
  // Headers and responses.

  /** The header object `buildHeaders(mimeType, body, compressed)` returns:
      exactly `Content-Length`, `Content-Type` and, when compressed,
      `Content-Encoding: gzip`; the length is the decimal numeral of the body's
      byte length, `0` without a body. */
  function HeadersFor(mimeType: string, body: Option<Bytes>, compressed: bool): (h: map<string, string>)
    ensures h.Keys == {ContentLength, ContentType} + (if compressed then {ContentEncoding} else {})
    ensures h[ContentType] == mimeType
    ensures Decimal.AllDigits(h[ContentLength])
    ensures Decimal.ParseDecimal(h[ContentLength]) == if body.Some? then |body.value| else 0
    ensures body.None? ==> h[ContentLength] == "0"
    ensures h[ContentLength] == Decimal.DecimalString(if body.Some? then |body.value| else 0)
    ensures compressed ==> h[ContentEncoding] == "gzip"
  {
    var length := if body.Some? then |body.value| else 0;
    Decimal.ParseDecimalString(length);
    var headers := map[ContentLength := Decimal.DecimalString(length), ContentType := mimeType];
    if compressed then headers[ContentEncoding := "gzip"] else headers
  }

  /** No two bodies of different length get the same `Content-Length`. */
  lemma ContentLengthInjective(mimeType: string, b1: Bytes, b2: Bytes, c1: bool, c2: bool)
    requires HeadersFor(mimeType, Some(b1), c1)[ContentLength] == HeadersFor(mimeType, Some(b2), c2)[ContentLength]
    ensures |b1| == |b2|
  {
    Decimal.DecimalStringInjective(|b1|, |b2|);
  }

  /** `buildResponse(statusCode, mimeType, body, compress)`: the body is
      gzipped exactly when there is one and `compress` holds, the status passes
      through, and the headers describe the body actually sent. */
  function BuiltResponse(codecs: Codecs, statusCode: int, mimeType: string, body: Option<Bytes>, compress: bool): (r: Response)
    ensures r.statusCode == statusCode
    ensures r.body == if body.Some? && compress then Some(codecs.gzip(body.value)) else body
    ensures r.headers == HeadersFor(mimeType, r.body, body.Some? && compress)
    ensures ContentEncoding in r.headers <==> body.Some? && compress
  {
    if body.Some? && compress then
      var gzipped := Some(codecs.gzip(body.value));
      Response(statusCode, HeadersFor(mimeType, gzipped, true), gzipped)
    else
      Response(statusCode, HeadersFor(mimeType, body, false), body)
  }

  /** The body `buildResponseForArchiveEntry` sends: none without text;
      re-encoded text (after the delegate's `textFor`) for a UTF-8 mime type;
      otherwise the decoded text as is. */
  function EntryBody(delegate: Delegate, codecs: Codecs, entry: Entry, key: string, content: Content): Option<Bytes> {
    if content.text.None? then None
    else if codecs.charset(content.mimeType) == Some("UTF-8") then
      var decoded := codecs.bufferToString(codecs.decode(content.text.value, content.encoding));
      var text := if delegate.textFor.Some? then delegate.textFor.value(entry, key, decoded) else decoded;
      Some(codecs.encodeUtf8(text))
    else Some(codecs.decode(content.text.value, content.encoding))
  }

  /** `content.compression !== undefined && content.compression > 0` */
  predicate Compress(content: Content) {
    content.compression.Some? && content.compression.value > 0
  }

  /** The archive can answer for an entry with content and a 2xx status. */
  predicate Replayable(entry: Entry) {
    entry.response.content.Some? && 200 <= entry.response.status < 300
  }

  /** What `buildResponseForArchiveEntry(entry, key)` returns. */
  function EntryResponse(delegate: Delegate, codecs: Codecs, entry: Entry, key: string): Option<Response> {
    if Replayable(entry) then
      var content := entry.response.content.value;
      var response := BuiltResponse(codecs, entry.response.status, content.mimeType,
                                    EntryBody(delegate, codecs, entry, key, content), Compress(content));
      Some(if delegate.finalizeResponse.Some? then delegate.finalizeResponse.value(entry, key, response) else response)
    else if delegate.responseFor.Some? then delegate.responseFor.value(entry, key)
    else None
  }

  /** A replayable entry always yields a response; without `finalizeResponse`
      it keeps the archived status and mime type, is gzip-encoded exactly when
      the archive says it was compressed and it has text, and has a zero
      length when it has no text. */
  lemma ReplayableResponse(delegate: Delegate, codecs: Codecs, entry: Entry, key: string)
    requires Replayable(entry)
    ensures EntryResponse(delegate, codecs, entry, key).Some?
    ensures delegate.finalizeResponse.None? ==>
      var r := EntryResponse(delegate, codecs, entry, key).value;
      var content := entry.response.content.value;
      && r.statusCode == entry.response.status
      && r.headers[ContentType] == content.mimeType
      && (ContentEncoding in r.headers <==> Compress(content) && content.text.Some?)
      && (content.text.None? ==> r.body.None? && r.headers[ContentLength] == "0")
  {
  }

  /** An entry the archive cannot answer for is left to the delegate's
      `responseFor`, and to nothing when there is no such hook. */
  lemma FallbackResponse(delegate: Delegate, codecs: Codecs, entry: Entry, key: string)
    requires !Replayable(entry)
    ensures delegate.responseFor.None? ==> EntryResponse(delegate, codecs, entry, key).None?
    ensures delegate.responseFor.Some? ==>
      EntryResponse(delegate, codecs, entry, key) == delegate.responseFor.value(entry, key)
  {
  }

  // ---------------------------------------------------------------------------
  // The table.

  /** A key is usable when it is truthy: present and not empty. */
  predicate Truthy(key: Option<string>) {
    key.Some? && key.value != ""
  }

  /** The table after `addArchiveEntry(entry)`. */
  function AfterEntry(delegate: Delegate, codecs: Codecs, responses: map<string, Response>, entry: Entry): map<string, Response> {
    var key := delegate.keyForArchiveEntry(entry);
    if !Truthy(key) then responses
    else
      var response := EntryResponse(delegate, codecs, entry, key.value);
      if response.None? then responses else responses[key.value := response.value]
  }

  /** The table after `addArchiveEntries(entries)`. */
  function AfterEntries(delegate: Delegate, codecs: Codecs, responses: map<string, Response>, entries: seq<Entry>): map<string, Response> {
    if |entries| == 0 then responses
    else AfterEntry(delegate, codecs, AfterEntries(delegate, codecs, responses, entries[..|entries| - 1]), entries[|entries| - 1])
  }

  /** The response entry `entry` stores under `k`, if it stores one there. */
  function Contribution(delegate: Delegate, codecs: Codecs, entry: Entry, k: string): Option<Response> {
    if delegate.keyForArchiveEntry(entry) == Some(k) && k != "" then EntryResponse(delegate, codecs, entry, k)
    else None
  }

  /** Reference definition: the response of the LAST entry that stores one
      under `k`, or `before` when none does. */
  function LastContribution(delegate: Delegate, codecs: Codecs, entries: seq<Entry>, k: string, before: Option<Response>): Option<Response> {
    if |entries| == 0 then before
    else
      var c := Contribution(delegate, codecs, entries[|entries| - 1], k);
      if c.Some? then c else LastContribution(delegate, codecs, entries[..|entries| - 1], k, before)
  }

  function Lookup(responses: map<string, Response>, k: string): Option<Response> {
    if k in responses then Some(responses[k]) else None
  }

  /** One entry changes at most the slot of its own key. */
  lemma AfterEntryLookup(delegate: Delegate, codecs: Codecs, responses: map<string, Response>, entry: Entry, k: string)
    ensures var c := Contribution(delegate, codecs, entry, k);
      Lookup(AfterEntry(delegate, codecs, responses, entry), k) == if c.Some? then c else Lookup(responses, k)
  {
  }

  /** Entries are applied in order, so under every key the last entry that
      stores a response wins, and a key no entry stores under keeps what it had. */
  lemma {:induction false} AfterEntriesLastWins(delegate: Delegate, codecs: Codecs, responses: map<string, Response>,
                                                entries: seq<Entry>, k: string)
    ensures Lookup(AfterEntries(delegate, codecs, responses, entries), k)
         == LastContribution(delegate, codecs, entries, k, Lookup(responses, k))
  {
    if 0 < |entries| {
      var init := entries[..|entries| - 1];
      AfterEntriesLastWins(delegate, codecs, responses, init, k);
      AfterEntryLookup(delegate, codecs, AfterEntries(delegate, codecs, responses, init), entries[|entries| - 1], k);
    }
  }

  /** The last storing entry is found by position: if entry `i` stores under
      `k` and no later one does, the table holds entry `i`'s response. */
  lemma {:induction false} LastContributionAt(delegate: Delegate, codecs: Codecs, entries: seq<Entry>, k: string,
                                              before: Option<Response>, i: nat)
    requires i < |entries| && Contribution(delegate, codecs, entries[i], k).Some?
    requires forall j :: i < j < |entries| ==> Contribution(delegate, codecs, entries[j], k).None?
    ensures LastContribution(delegate, codecs, entries, k, before) == Contribution(delegate, codecs, entries[i], k)
  {
    if i < |entries| - 1 {
      var init := entries[..|entries| - 1];
      assert init[i] == entries[i];
      LastContributionAt(delegate, codecs, init, k, before, i);
    }
  }

  /** When no entry stores under `k`, the slot is what it was. */
  lemma {:induction false} LastContributionNone(delegate: Delegate, codecs: Codecs, entries: seq<Entry>, k: string,
                                                before: Option<Response>)
    requires forall j :: 0 <= j < |entries| ==> Contribution(delegate, codecs, entries[j], k).None?
    ensures LastContribution(delegate, codecs, entries, k, before) == before
  {
    if 0 < |entries| {
      var init := entries[..|entries| - 1];
      assert forall j :: 0 <= j < |init| ==> init[j] == entries[j];
      LastContributionNone(delegate, codecs, init, k, before);
    }
  }

  /** Some slot value is left exactly when one was there before or some entry
      stores one under that key. */
  lemma {:induction false} LastContributionSome(delegate: Delegate, codecs: Codecs, entries: seq<Entry>, k: string,
                                                before: Option<Response>)
    ensures LastContribution(delegate, codecs, entries, k, before).Some? <==>
      before.Some? || exists j :: 0 <= j < |entries| && Contribution(delegate, codecs, entries[j], k).Some?
  {
    if 0 < |entries| {
      var init := entries[..|entries| - 1];
      LastContributionSome(delegate, codecs, init, k, before);
      if exists j :: 0 <= j < |entries| && Contribution(delegate, codecs, entries[j], k).Some? {
        var j :| 0 <= j < |entries| && Contribution(delegate, codecs, entries[j], k).Some?;
        if j < |init| {
          assert init[j] == entries[j];
        }
      }
      if exists j :: 0 <= j < |init| && Contribution(delegate, codecs, init[j], k).Some? {
        var j :| 0 <= j < |init| && Contribution(delegate, codecs, init[j], k).Some?;
        assert entries[j] == init[j];
      }
    }
  }

  /** The keys of the table after the entries: the old keys plus the keys some
      entry stores a response under. */
  lemma AfterEntriesKeys(delegate: Delegate, codecs: Codecs, responses: map<string, Response>, entries: seq<Entry>, k: string)
    ensures k in AfterEntries(delegate, codecs, responses, entries) <==>
      k in responses || exists j :: 0 <= j < |entries| && Contribution(delegate, codecs, entries[j], k).Some?
  {
    AfterEntriesLastWins(delegate, codecs, responses, entries, k);
    LastContributionSome(delegate, codecs, entries, k, Lookup(responses, k));
  }

  /** `ArchiveServer`: the delegate and the byte-level operations are fixed
      at construction; `responses` is the key-to-response table. */
  class ArchiveServer {
    const delegate: Delegate
    const codecs: Codecs
    var responses: map<string, Response>

    /** `new ArchiveServer(delegate)`: an empty table. */
    constructor(delegate: Delegate, codecs: Codecs)
      ensures this.delegate == delegate && this.codecs == codecs
      ensures responses == map[]
    {
      this.delegate := delegate;
      this.codecs := codecs;
      responses := map[];
    }

    /** `addArchive(har)` */
    method AddArchive(har: Archive)
      modifies this
      ensures responses == AfterEntries(delegate, codecs, old(responses), har.entries)
    {
      AddArchiveEntries(har.entries);
    }

    /** `addArchiveEntries(entries)`: each entry in sequence order. */
    method AddArchiveEntries(entries: seq<Entry>)
      modifies this
      ensures responses == AfterEntries(delegate, codecs, old(responses), entries)
    {
      for i := 0 to |entries|
        invariant responses == AfterEntries(delegate, codecs, old(responses), entries[..i])
      {
        assert entries[..i + 1][..i] == entries[..i];
        AddArchiveEntry(entries[i]);
      }
      assert entries[..|entries|] == entries;
    }

    /** `addArchiveEntry(entry)`: nothing happens for a falsy key or when no
      response can be built; otherwise the response is stored under the key. */
    method AddArchiveEntry(entry: Entry)
      modifies this
      ensures responses == AfterEntry(delegate, codecs, old(responses), entry)
    {
      var key := delegate.keyForArchiveEntry(entry);
      if key.None? || key.value == "" {
        return;
      }
      var response := BuildResponseForArchiveEntry(entry, key.value);
      if response.Some? {
        AddResponse(key.value, response.value);
      }
    }

    /** `buildResponseForArchiveEntry(entry, key)` */
    method BuildResponseForArchiveEntry(entry: Entry, key: string) returns (r: Option<Response>)
      ensures r == EntryResponse(delegate, codecs, entry, key)
    {
      var status, content := entry.response.status, entry.response.content;
      if content.Some? && status >= 200 && status < 300 {
        var text := content.value.text;
        var encoding, mimeType := content.value.encoding, content.value.mimeType;
        var body: Option<Bytes>;
        if text.None? {
          body := None;
        } else if codecs.charset(mimeType) == Some("UTF-8") {
          var decoded := codecs.bufferToString(codecs.decode(text.value, encoding));
          if delegate.textFor.Some? {
            decoded := delegate.textFor.value(entry, key, decoded);
          }
          body := Some(codecs.encodeUtf8(decoded));
        } else {
          body := Some(codecs.decode(text.value, encoding));
        }
        var compress := content.value.compression.Some? && content.value.compression.value > 0;
        var response := BuildResponse(status, mimeType, body, compress);
        if delegate.finalizeResponse.Some? {
          response := delegate.finalizeResponse.value(entry, key, response);
        }
        return Some(response);
      }
      if delegate.responseFor.Some? {
        return delegate.responseFor.value(entry, key);
      }
      return None;
    }

    /** `buildResponse(statusCode, mimeType, body, compress)` */
    method BuildResponse(statusCode: int, mimeType: string, body: Option<Bytes>, compress: bool) returns (r: Response)
      ensures r == BuiltResponse(codecs, statusCode, mimeType, body, compress)
    {
      var sent := body;
      var headers: map<string, string>;
      if body.Some? && compress {
        sent := Some(codecs.gzip(body.value));
        headers := BuildHeaders(mimeType, sent, true);
      } else {
        headers := BuildHeaders(mimeType, sent, false);
      }
      r := Response(statusCode, headers, sent);
    }

    /** `buildHeaders(mimeType, body, compressed)` */
    method BuildHeaders(mimeType: string, body: Option<Bytes>, compressed: bool) returns (headers: map<string, string>)
      ensures headers == HeadersFor(mimeType, body, compressed)
    {
      var length := if body.Some? then |body.value| else 0;
      headers := map[ContentLength := Decimal.DecimalString(length), ContentType := mimeType];
      if compressed {
        headers := headers[ContentEncoding := "gzip"];
      }
    }

    /** `addResponse(key, response)`: afterwards `key` answers `response` and
        every other key answers what it did before. */
    method AddResponse(key: string, response: Response)
      modifies this
      ensures responses == old(responses)[key := response]
      ensures Lookup(responses, key) == Some(response)
      ensures forall k :: k != key ==> Lookup(responses, k) == Lookup(old(responses), k)
    {
      responses := responses[key := response];
    }

    /** `setResponse(key, response)`: the same update as `addResponse`. */
    method SetResponse(key: string, response: Response)
      modifies this
      ensures responses == old(responses)[key := response]
      ensures Lookup(responses, key) == Some(response)
      ensures forall k :: k != key ==> Lookup(responses, k) == Lookup(old(responses), k)
    {
      responses := responses[key := response];
    }

    /** `responseFor(key)`: the stored response, `undefined` for an unknown key. */
    method ResponseFor(key: string) returns (r: Option<Response>)
      ensures r.Some? <==> key in responses
      ensures r.Some? ==> r.value == responses[key]
    {
      if key in responses {
        return Some(responses[key]);
      }
      return None;
    }
  }
}
