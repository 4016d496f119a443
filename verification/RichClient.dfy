/**
  The rich client (relay/rich.go): a request goes to the native stream or to the translated
  one, after the stream has been opened, and a non-streaming request drains either.
*/
module RichClient {
  import opened Options
  import opened Channels
  import opened Messages
  import opened Fallback
  import Flat = ChatStream
  import Native = AnthropicStream
  import Translated = RichStream

  /** An opened stream: what the goroutine behind it will meet. */
  datatype Source =
    | Events(cancelled: Option<Error>, events: seq<Native.Event>, scanErr: Option<Error>)
    | Writes(cancelled: Option<Error>, resp: Flat.Response)

  /** The goroutine will send an error instead of a final response. */
  predicate Fails(s: Source) {
    match s
    case Events(cancelled, _, scanErr) => cancelled.Some? || scanErr.Some?
    case Writes(cancelled, resp) => Flat.Fails(cancelled, resp)
  }

  /** What a native stream and a flat one come with when they are opened. */
  type NativeStream = (Option<Error>, seq<Native.Event>, Option<Error>)
  type FlatStream = (Option<Error>, Flat.Response)

  /** What opening a stream gives, per attempt and model: on the native path there is one attempt only. */
  datatype Provider = Provider(name: string, openNative: string -> Outcome<NativeStream, Error>,
                               openFlat: Attempts<FlatStream, Error>)

  const NO_PROVIDER: Error := "relay: no provider configured"

  predicate IsAnthropic(p: Provider) {
    p.name == "claude" || p.name == "anthropic"
  }

  /** The request opens this stream: natively at once, otherwise at the first candidate model that is reached. */
  ghost predicate Opens(provider: Option<Provider>, model: string, fallback: Option<Config<Error>>, s: Source) {
    provider.Some? &&
    if provider.value.name == "claude" || provider.value.name == "anthropic" then
      s.Events? && provider.value.openNative(model) == Ok((s.cancelled, s.events, s.scanErr))
    else
      s.Writes? && exists k: nat :: Reaches(Candidates(model, fallback), fallback, provider.value.openFlat, k)
                                    && provider.value.openFlat(k, Candidates(model, fallback)[k]) ==
                                       Ok((s.cancelled, s.resp))
  }

  /** The final response goes with what the source sent. */
  ghost predicate FinalOf(decode: Flat.Decoder, s: Source, final: RichResponse) {
    match s
    case Events(_, events, _) => Native.IsFinalOf(final, events)
    case Writes(_, resp) =>
      final == Translated.FinalResponse(Translated.Run(Flat.ForwardedAll(decode, resp.writes)), resp.usage)
  }

  /** Whichever stream is opened, the result keeps the same promise. */
  method RichChatStream(provider: Option<Provider>, model: string, fallback: Option<Config<Error>>,
              decode: Flat.Decoder)
    returns (result: Outcome<RichLog, Error>)
    ensures provider.None? ==> result == Failed("relay: no provider configured")
    ensures result.Ok? <==> exists s :: Opens(provider, model, fallback, s)
    ensures forall s :: Opens(provider, model, fallback, s) ==>
              IsRichResult(result.value, Fails(s)) && (!Fails(s) ==> FinalOf(decode, s, Stored(result.value).value))
  {
    if provider.None? {
      return Failed(NO_PROVIDER);
    }
    if IsAnthropic(provider.value) {
      var attempt := provider.value.openNative(model);
      if attempt.Failed? {
        return Failed(attempt.error);
      }
      assert Opens(provider, model, fallback, Events(attempt.value.0, attempt.value.1, attempt.value.2));
      var log := Native.StreamAnthropic(attempt.value.0, attempt.value.1, attempt.value.2);
      return Ok(log);
    }
    var attempt := Request(model, fallback, provider.value.openFlat);
    if attempt.Failed? {
      return Failed(attempt.error);
    }
    assert Opens(provider, model, fallback, Writes(attempt.value.0, attempt.value.1));
    var log := Translated.StreamTranslated(decode, attempt.value.0, attempt.value.1);
    return Ok(log);
  }

  const NO_RESPONSE := RichResponse("", "", [], "", 0, 0, 0, 0)

  /**
    The non-streaming request drains the result and returns Final as it then is. A stream that
    failed after it was opened gives no error but an empty response, and only such a stream does.
  */
  method RichChat(provider: Option<Provider>, model: string, fallback: Option<Config<Error>>, decode: Flat.Decoder)
    returns (answer: Outcome<RichResponse, Error>)
    ensures answer.Ok? <==> exists s :: Opens(provider, model, fallback, s)
    ensures forall s :: Opens(provider, model, fallback, s) ==>
              if Fails(s) then answer.value == RichResponse("", "", [], "", 0, 0, 0, 0)
              else answer.value.content != [] && FinalOf(decode, s, answer.value)
  {
    var result := RichChatStream(provider, model, fallback, decode);
    if result.Failed? {
      return Failed(result.error);
    }
    var final := Stored(result.value);
    return Ok(if final.Some? then final.value else NO_RESPONSE);
  }
}
