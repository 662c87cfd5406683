/** From the bytes a browser posts to the bytes the backend receives. */
module PostPayload {
  import opened Bytes
  import opened Options
  import opened ClientState
  import opened Session
  import opened SessionInvariant
  import opened SessionTraffic
  import Queries
  import UrlCodec

  const NUL: Byte := 0

  /** data=<encoded b>, as a form field. */
  function DataField(b: Bytes): Bytes {
    Queries.DATA + [Queries.EQUALS] + UrlCodec.Encode(b)
  }

  /** The end of the form: nothing, or more fields. */
  ghost predicate Continues(rest: Bytes) {
    rest == [] || rest[0] == Queries.AMP
  }

  lemma EncodedHasNo(b: Bytes, x: Byte)
    requires x == Queries.AMP || x == Queries.EQUALS || x == NUL
    ensures x !in UrlCodec.Encode(b)
  {
    forall i | 0 <= i < |UrlCodec.Encode(b)| ensures UrlCodec.Encode(b)[i] != x {
      UrlCodec.EncodedBytes(b, i);
    }
  }

  lemma DataFieldIsPair(b: Bytes)
    ensures Queries.AMP !in DataField(b)
    ensures Queries.KeyOf(DataField(b)) == Some(Queries.DATA)
    ensures Queries.ValueOf(DataField(b)) == UrlCodec.Encode(b)
  {
    EncodedHasNo(b, Queries.AMP);
    Queries.FindAfter(Queries.DATA, Queries.EQUALS, UrlCodec.Encode(b));
    assert DataField(b)[..|Queries.DATA|] == Queries.DATA;
  }

  lemma SplitField(w: Bytes, rest: Bytes)
    requires Queries.AMP !in w && w != [] && Continues(rest)
    ensures Queries.Split(w + rest) == [w] + (if rest == [] then [] else Queries.Split(rest[1..]))
  {
    if rest == [] {
      assert w + rest == w;
      Queries.FindNone(w, Queries.AMP);
      assert w[..|w|] == w;
    } else {
      assert w + rest == w + [Queries.AMP] + rest[1..];
      Queries.SplitFirst(w, rest[1..]);
    }
  }

  lemma {:induction false} SkipsOthers(words: seq<Bytes>, more: seq<Bytes>, key: Bytes)
    requires forall w :: w in words ==> Queries.KeyOf(w) != Some(key)
    ensures Queries.FirstValue(words + more, key) == Queries.FirstValue(more, key)
  {
    if words == [] {
      assert words + more == more;
    } else {
      assert (words + more)[1..] == words[1..] + more;
      SkipsOthers(words[1..], more, key);
    }
  }

  /**
    A form whose first `data` field is the encoding of `b`, whatever fields come before and
    after it, is read back as `b`.
   */
  lemma PayloadRoundTrip(before: seq<Bytes>, b: Bytes, rest: Bytes)
    requires forall w :: w in before ==> Queries.AMP !in w && Queries.KeyOf(w) != Some(Queries.DATA)
    requires Continues(rest)
    ensures Queries.Getter(Queries.Joined(before) + (DataField(b) + rest), Queries.DATA) == UrlCodec.Encode(b)
    ensures UrlCodec.Decode(Queries.Getter(Queries.Joined(before) + (DataField(b) + rest), Queries.DATA)) == b
  {
    var form := Queries.Joined(before) + (DataField(b) + rest);
    DataFieldIsPair(b);
    Queries.SplitJoined(before, DataField(b) + rest);
    SplitField(DataField(b), rest);
    SkipsOthers(before, Queries.Split(DataField(b) + rest), Queries.DATA);
    Queries.GetterIsFirst(form, Queries.DATA);
    UrlCodec.DecodeEncode(b);
  }

  // ---------- through the relay ----------

  /** A C string ends at its first NUL. */
  function Text(s: Bytes): Bytes {
    s[..Queries.Find(s, NUL)]
  }

  /** What _write does to an item: url_decode, then base64 decoding of the C string. */
  function Decoder(base64: Bytes -> Option<Bytes>): Bytes -> Option<Bytes> {
    (item: Bytes) => base64(Text(UrlCodec.Decode(Text(item))))
  }

  function Encodings(texts: seq<Bytes>): seq<Bytes> {
    if texts == [] then [] else Encodings(texts[..|texts| - 1]) + [UrlCodec.Encode(texts[|texts| - 1])]
  }

  lemma DecoderUndoes(base64: Bytes -> Option<Bytes>, text: Bytes)
    requires NUL !in text
    ensures Decoder(base64)(UrlCodec.Encode(text)) == base64(text)
  {
    EncodedHasNo(text, NUL);
    Queries.FindNone(UrlCodec.Encode(text), NUL);
    Queries.FindNone(text, NUL);
    UrlCodec.DecodeEncode(text);
    assert Text(UrlCodec.Encode(text)) == UrlCodec.Encode(text) && Text(text) == text;
  }

  /** A NUL that was escaped ends the text as well: what follows it is not decoded. */
  lemma DecoderCuts(base64: Bytes -> Option<Bytes>, text: Bytes, more: Bytes)
    requires NUL !in text
    ensures Decoder(base64)(UrlCodec.Encode(text + [NUL] + more)) == base64(text)
    ensures Text(text + [NUL] + more) == text
  {
    var all := text + [NUL] + more;
    EncodedHasNo(all, NUL);
    Queries.FindNone(UrlCodec.Encode(all), NUL);
    Queries.FindAfter(text, NUL, more);
    UrlCodec.DecodeEncode(all);
    assert Text(UrlCodec.Encode(all)) == UrlCodec.Encode(all);
    assert all[..|text|] == text && Text(all) == text;
  }

  lemma {:induction false} DecodableTexts(base64: Bytes -> Option<Bytes>, texts: seq<Bytes>)
    requires forall text :: text in texts ==> NUL !in text
    ensures |Encodings(texts)| == |texts|
    ensures Decodable(Decoder(base64), Encodings(texts)) == Decodable(base64, texts)
  {
    if texts != [] {
      var n := |texts| - 1;
      DecodableTexts(base64, texts[..n]);
      DecoderUndoes(base64, texts[n]);
      assert Encodings(texts)[..n] == Encodings(texts[..n]);
    }
  }

  /** A form that a browser posts: fields without a `data` field, `data` with the encoding of a text, more fields. */
  datatype Form = Form(before: seq<Bytes>, text: Bytes, rest: Bytes)

  ghost predicate WellFormed(form: Form) {
    && (forall w :: w in form.before ==> Queries.AMP !in w && Queries.KeyOf(w) != Some(Queries.DATA))
    && Continues(form.rest)
    && NUL !in form.text
  }

  function Content(form: Form): Bytes {
    Queries.Joined(form.before) + (DataField(form.text) + form.rest)
  }

  /** What onPost takes from each form. */
  function Payloads(forms: seq<Form>): seq<Bytes> {
    if forms == [] then []
    else Payloads(forms[..|forms| - 1]) + [Queries.Getter(Content(forms[|forms| - 1]), Queries.DATA)]
  }

  function Texts(forms: seq<Form>): seq<Bytes> {
    if forms == [] then [] else Texts(forms[..|forms| - 1]) + [forms[|forms| - 1].text]
  }

  lemma {:induction false} PayloadsAreEncodings(forms: seq<Form>)
    requires forall form :: form in forms ==> WellFormed(form)
    ensures Payloads(forms) == Encodings(Texts(forms))
    ensures forall text :: text in Texts(forms) ==> NUL !in text
  {
    if forms != [] {
      var n := |forms| - 1;
      PayloadsAreEncodings(forms[..n]);
      assert forms[n] in forms;
      PayloadRoundTrip(forms[n].before, forms[n].text, forms[n].rest);
      assert Texts(forms)[..|Texts(forms)| - 1] == Texts(forms[..n]);
    }
  }

  /**
    End to end: the POSTs that a session accepted carried the data fields of these forms, its
    WRITE requests have been carried out and the socket never refused.  Then the backend got
    exactly what the texts in the forms decode to, in POST order.
   */
  lemma RelayDeliversForms(cfg: Config, base64: Bytes -> Option<Bytes>, ss: seq<State>, steps: seq<Step>, n: nat,
                           c: Ref, forms: seq<Form>)
    requires cfg.decode == Decoder(base64) && IsRun(cfg, ss, steps) && n <= |steps| && c in ss[n].clients
    requires Count(Requests(ss[n].reqs, c), WRITE) == 0
    requires ServerClient(ss[n].server) != Some(c) && LoopClient(ss[n].loop) != Some(c)
    requires !Refused(ss, steps, n, c)
    requires forall form :: form in forms ==> WellFormed(form)
    requires Total(ss, steps, n, c, Posts) == Payloads(forms)
    ensures Total(ss, steps, n, c, Sends) == Decodable(base64, Texts(forms))
  {
    AllWritesSent(cfg, ss, steps, n, c);
    PayloadsAreEncodings(forms);
    DecodableTexts(base64, Texts(forms));
  }
}
