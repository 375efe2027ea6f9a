/**
 * The realtime client's convenience overloads: a temporary-token request built
 * from a lifetime in seconds, and transcriber creation that falls back to the
 * client's own API key when the options carry no credential.
 */
module Realtime {
  import opened Common

  /** The credential part of a transcriber's options; both credentials start unset. */
  class RealtimeTranscriberOptions {
    var token: Option<string>
    var apiKey: Option<string>

    constructor ()
      ensures token == None && apiKey == None
    {
      token := None;
      apiKey := None;
    }
  }

  /** A transcriber, reduced to the options object it was built from. */
  class RealtimeTranscriber {
    const options: RealtimeTranscriberOptions

    constructor (options: RealtimeTranscriberOptions)
      ensures this.options == options
    {
      this.options := options;
    }
  }

  /** The body of the temporary-token request. */
  datatype CreateRealtimeTemporaryTokenParams = CreateRealtimeTemporaryTokenParams(expiresIn: Int32)

  /**
   * The API key the options hold after transcriber creation: the client's key
   * when the options carry neither a token nor a key, otherwise their own key.
   */
  function DefaultedApiKey(token: Option<string>, apiKey: Option<string>, clientApiKey: Option<string>): (r: Option<string>)
    ensures token == None && apiKey == None ==> r == clientApiKey
    ensures token != None ==> r == apiKey
    ensures apiKey != None ==> r == apiKey
    ensures r == apiKey || r == clientApiKey
  {
    if token == None && apiKey == None then clientApiKey else apiKey
  }

  /** Defaulting twice is the same as defaulting once. */
  lemma DefaultedApiKeyIdempotent(token: Option<string>, apiKey: Option<string>, clientApiKey: Option<string>)
    ensures var once := DefaultedApiKey(token, apiKey, clientApiKey);
      DefaultedApiKey(token, once, clientApiKey) == once
  {
  }

  class RealtimeClient {
    /** The API key the client was configured with. */
    const clientApiKey: Option<string>

    constructor (clientApiKey: Option<string>)
      ensures this.clientApiKey == clientApiKey
    {
      this.clientApiKey := clientApiKey;
    }

    /** The request parameters the `int` overload of the token call passes on. */
    function TemporaryTokenParams(expiresIn: Int32): (p: CreateRealtimeTemporaryTokenParams)
      ensures p.expiresIn == expiresIn
    {
      CreateRealtimeTemporaryTokenParams(expiresIn)
    }

    /**
     * Fills in the client's API key when `options` has no credential, then
     * builds the transcriber from that same options object.
     */
    method CreateTranscriber(options: RealtimeTranscriberOptions) returns (t: RealtimeTranscriber)
      modifies options`apiKey
      ensures fresh(t) && t.options == options
      ensures options.token == old(options.token)
      ensures options.apiKey == DefaultedApiKey(options.token, old(options.apiKey), clientApiKey)
      ensures old(options.token) != None ==> unchanged(options)
    {
      if options.token == None && options.apiKey == None {
        options.apiKey := clientApiKey;
      }
      t := new RealtimeTranscriber(options);
    }

    /** A transcriber over fresh default options, authenticated with the client's key. */
    method CreateDefaultTranscriber() returns (t: RealtimeTranscriber)
      ensures fresh(t) && fresh(t.options)
      ensures t.options.token == None && t.options.apiKey == clientApiKey
    {
      var options := new RealtimeTranscriberOptions();
      t := CreateTranscriber(options);
    }
  }
}
