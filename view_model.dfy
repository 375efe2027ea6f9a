/**
 * The microphone transcription view model of the Avalonia sample: the word
 * buffer and the transcript it renders, the four connection flags driven by
 * the transcriber's status, and the error text set on an abnormal close.
 */
module ViewModels {
  import opened Common
  import opened Formatting
  import opened TranscriptAssembly

  /** The four values of the transcriber's status. */
  datatype TranscriberStatus = Connecting | Connected | Disconnecting | Disconnected

  /** The view model's four connection flags, in declaration order. */
  datatype StatusFlags = StatusFlags(
    isConnecting: bool, isConnected: bool, isDisconnecting: bool, isDisconnected: bool)

  function Count(b: bool): nat {
    if b then 1 else 0
  }

  predicate ExactlyOne(f: StatusFlags) {
    Count(f.isConnecting) + Count(f.isConnected) + Count(f.isDisconnecting) + Count(f.isDisconnected) == 1
  }

  /** The flags the status observer assigns for each status. */
  function FlagsFor(s: TranscriberStatus): (f: StatusFlags)
    ensures ExactlyOne(f)
    ensures f.isConnecting <==> s == Connecting
    ensures f.isConnected <==> s == Connected
    ensures f.isDisconnecting <==> s == Disconnecting
    ensures f.isDisconnected <==> s == Disconnected
  {
    match s
    case Connected => StatusFlags(false, true, false, false)
    case Connecting => StatusFlags(true, false, false, false)
    case Disconnecting => StatusFlags(false, false, true, false)
    case Disconnected => StatusFlags(false, false, false, true)
  }

  /** The status that a consistent set of flags shows. */
  function StatusOf(f: StatusFlags): (s: TranscriberStatus)
    requires ExactlyOne(f)
    ensures FlagsFor(s) == f
  {
    if f.isConnecting then Connecting
    else if f.isConnected then Connected
    else if f.isDisconnecting then Disconnecting
    else Disconnected
  }

  /** Distinct statuses show distinct flags, so the flags always say which status was last seen. */
  lemma FlagsForRoundTrip(s: TranscriberStatus)
    ensures StatusOf(FlagsFor(s)) == s
  {
    var t := StatusOf(FlagsFor(s));
    assert FlagsFor(t) == FlagsFor(s);
  }

  /** `WebSocketCloseStatus.NormalClosure`, close code 1000 of section 7.4.1 of RFC 6455. */
  const NormalClosure: Int32 := 1000

  const CloseMessagePrefix: string := "Socket closed with code "

  /**
   * The error text for a close with `code` and `reason`: the fixed prefix, the
   * code in decimal, a colon and a space, then the reason.
   */
  function CloseMessage(code: Int32, reason: string): (msg: string)
    ensures |msg| == |CloseMessagePrefix| + |IntToDecimal(code)| + 2 + |reason|
    ensures msg[..|CloseMessagePrefix|] == CloseMessagePrefix
    ensures msg[|CloseMessagePrefix|..|msg| - |reason| - 2] == IntToDecimal(code)
    ensures msg[|msg| - |reason| - 2..] == ": " + reason
  {
    var digits := IntToDecimal(code);
    var tail := ": " + reason;
    var msg := CloseMessagePrefix + (digits + tail);
    assert msg[..|CloseMessagePrefix|] == CloseMessagePrefix;
    assert msg[|CloseMessagePrefix|..] == digits + tail;
    assert (digits + tail)[..|digits|] == digits;
    assert (digits + tail)[|digits|..] == tail;
    assert CloseMessagePrefix + digits + ": " + reason == msg;
    msg
  }

  /** The error a close event reports: none for a normal closure, the close message otherwise. */
  function CloseError(code: Int32, reason: string): (e: Option<string>)
    ensures e == None <==> code == NormalClosure
    ensures e.Some? ==> e.value == CloseMessage(code, reason)
  {
    if code == NormalClosure then None else Some(CloseMessage(code, reason))
  }

  lemma ColonEndsPrefix(d: string, t: string)
    requires forall i :: 0 <= i < |d| ==> d[i] != ':'
    requires |t| > 0 && t[0] == ':'
    ensures (d + t)[|d|] == ':'
    ensures forall i :: 0 <= i < |d| ==> (d + t)[i] != ':'
  {
  }

  lemma SplitAtColon(d1: string, t1: string, d2: string, t2: string)
    requires forall i :: 0 <= i < |d1| ==> d1[i] != ':'
    requires forall i :: 0 <= i < |d2| ==> d2[i] != ':'
    requires |t1| > 0 && t1[0] == ':' && |t2| > 0 && t2[0] == ':'
    requires d1 + t1 == d2 + t2
    ensures d1 == d2 && t1 == t2
  {
    ColonEndsPrefix(d1, t1);
    ColonEndsPrefix(d2, t2);
    assert |d1| == |d2|;
    assert d1 == (d1 + t1)[..|d1|];
    assert d2 == (d2 + t2)[..|d2|];
    assert t1 == (d1 + t1)[|d1|..];
    assert t2 == (d2 + t2)[|d2|..];
  }

  /** The close message carries its code and reason: different closes give different errors. */
  lemma CloseMessageDeterminesClose(c1: Int32, r1: string, c2: Int32, r2: string)
    requires CloseMessage(c1, r1) == CloseMessage(c2, r2)
    ensures c1 == c2 && r1 == r2
  {
    var p := CloseMessagePrefix;
    var d1, d2 := IntToDecimal(c1), IntToDecimal(c2);
    var t1, t2 := ": " + r1, ": " + r2;
    assert CloseMessage(c1, r1) == p + (d1 + t1);
    assert CloseMessage(c2, r2) == p + (d2 + t2);
    assert d1 + t1 == (p + (d1 + t1))[|p|..];
    assert d2 + t2 == (p + (d2 + t2))[|p|..];
    SplitAtColon(d1, t1, d2, t2);
    IntToDecimalInjective(c1, c2);
    assert r1 == t1[2..] && r2 == t2[2..];
  }

  class TranscribeMicrophoneViewModel {
    var transcriptWords: Buffer
    var transcript: string
    var error: Option<string>
    var isConnecting: bool
    var isConnected: bool
    var isDisconnecting: bool
    var isDisconnected: bool

    function Flags(): StatusFlags
      reads this
    {
      StatusFlags(isConnecting, isConnected, isDisconnecting, isDisconnected)
    }

    /** The flags show exactly one of the four statuses, as they do after every status change. */
    ghost predicate Valid()
      reads this
    {
      ExactlyOne(Flags())
    }

    /** A fresh view model: empty buffer, no error, only `IsDisconnected` set. */
    constructor (placeholder: string)
      ensures Valid() && Flags() == FlagsFor(Disconnected)
      ensures transcriptWords == map[] && transcript == placeholder && error == None
    {
      transcriptWords := map[];
      transcript := placeholder;
      error := None;
      isConnecting, isConnected, isDisconnecting := false, false, false;
      isDisconnected := true;
    }

    /** The status observer: sets the four flags for `status`, changing nothing else. */
    method OnStatusChanged(status: TranscriberStatus)
      modifies this`isConnecting, this`isConnected, this`isDisconnecting, this`isDisconnected
      ensures Valid() && Flags() == FlagsFor(status)
    {
      match status
      case Connected =>
        isConnecting := false;
        isConnected := true;
        isDisconnecting := false;
        isDisconnected := false;
      case Connecting =>
        isConnecting := true;
        isConnected := false;
        isDisconnecting := false;
        isDisconnected := false;
      case Disconnecting =>
        isConnecting := false;
        isConnected := false;
        isDisconnecting := true;
        isDisconnected := false;
      case Disconnected =>
        isConnecting := false;
        isConnected := false;
        isDisconnecting := false;
        isDisconnected := true;
    }

    /** An error event from the transcriber: its text becomes the error. */
    method OnErrorReceived(message: string)
      modifies this`error
      ensures error == Some(message)
    {
      error := Some(message);
    }

    /** A close event: code 1000 leaves the error alone, any other code sets the close message. */
    method OnClosed(code: Int32, reason: string)
      modifies this`error
      ensures code == NormalClosure ==> error == old(error)
      ensures code != NormalClosure ==> error == Some(CloseMessage(code, reason))
    {
      if code == NormalClosure {
        return;
      }
      error := Some(CloseMessage(code, reason));
    }

    /** The `foreach` over an update's words, writing each into the buffer. */
    method StoreWords(words: seq<Word>)
      modifies this`transcriptWords
      ensures transcriptWords == ApplyWords(old(transcriptWords), words)
    {
      var i := 0;
      while i < |words|
        invariant 0 <= i <= |words|
        invariant transcriptWords == ApplyWords(old(transcriptWords), words[..i])
      {
        assert words[..i + 1][..i] == words[..i];
        transcriptWords := transcriptWords[words[i].start := words[i].text];
        i := i + 1;
      }
      assert words[..i] == words;
    }

    /** A partial result: ignored when its text is empty, otherwise stored and rendered. */
    method OnPartialTranscriptReceived(result: TranscriptResult)
      modifies this`transcriptWords, this`transcript
      ensures result.text == "" ==> transcriptWords == old(transcriptWords) && transcript == old(transcript)
      ensures result.text != "" ==>
        transcriptWords == ApplyWords(old(transcriptWords), result.words) && transcript == Render(transcriptWords)
    {
      if result.text == "" {
        return;
      }
      StoreWords(result.words);
      BuildTranscript();
    }

    /** A final result: always stored and rendered, even with no words. */
    method OnFinalTranscriptReceived(result: TranscriptResult)
      modifies this`transcriptWords, this`transcript
      ensures transcriptWords == ApplyWords(old(transcriptWords), result.words)
      ensures transcript == Render(transcriptWords)
    {
      StoreWords(result.words);
      BuildTranscript();
    }

    /** Renders the buffer into `transcript`. */
    method BuildTranscript()
      modifies this`transcript
      ensures transcript == Render(transcriptWords)
    {
      transcript := RenderBuffer(transcriptWords);
    }
  }

  /**
   * Partial "Hello" at 0, partial "world" at 500, then final "Hello," at 0, on a
   * fresh view model: the transcript is "Hello, world ".
   */
  method HelloWorldScenario() returns (t: string)
    ensures t == "Hello, world "
  {
    var vm := new TranscribeMicrophoneViewModel("");
    vm.OnPartialTranscriptReceived(TranscriptResult("Hello", [Word(0, "Hello")]));
    vm.OnPartialTranscriptReceived(TranscriptResult("world", [Word(500, "world")]));
    vm.OnFinalTranscriptReceived(TranscriptResult("Hello,", [Word(0, "Hello,")]));
    HelloWorldBuffer();
    HelloWorldRender();
    t := vm.transcript;
  }
}
