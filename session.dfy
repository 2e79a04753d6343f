/**
 * The wallet session of `MainViewModel`: the `MainUiState` record, the wallet
 * replies the handlers react to, and each handler as a pure transition from
 * the current state (and reply) to the next state and the one-shot message it
 * shows. The wallet itself (connection, signing, transport) is outside the
 * model; what it answers is an input.
 */
module Session {
  import opened Wrappers
  import opened TextEncoding

  datatype MainUiState = MainUiState(
    isConnecting: bool,
    isConnected: bool,
    isSigned: bool,
    balance: string,
    address: string,
    chainId: string,
    shouldLaunchMetaMask: bool)

  /** `MainUiState()` with every field at its declared default. */
  function DefaultUiState(): MainUiState {
    MainUiState(false, false, false, "0 ETH", "", "", false)
  }

  /** The one-shot event the screen consumes. */
  datatype UiEvent = ShowMessage(message: string)

  /** The intents the screen dispatches to the view model. */
  datatype EventSink = Connect | Disconnect | SignMessage

  /** A JSON-RPC request handed to the wallet. */
  datatype EthereumRequest = EthereumRequest(rpcMethod: string, params: seq<string>)

  /**
   * What the wallet's callback delivers: an error carrying its message, or a
   * success whose item value is a string (`Some`) or is missing or not a
   * string (`None`).
   */
  datatype Reply = Failure(message: string) | Success(value: Option<string>)

  /** Whether `ethereum.disconnect()` returned or threw (with a nullable message). */
  datatype DisconnectOutcome = Returned | Threw(message: Option<string>)

  /** A handler's effect: the new state and the message it shows. */
  datatype Step = Step(state: MainUiState, message: string)

  /** Kotlin's rendering of a nullable string in a template: `null` prints as "null". */
  function NullableText(s: Option<string>): string {
    s.GetOr("null")
  }

  /** True when `t` and `s` agree on every field except the session fields. */
  predicate SameOutsideSession(s: MainUiState, t: MainUiState) {
    t.balance == s.balance && t.chainId == s.chainId && t.isSigned == s.isSigned
    && t.shouldLaunchMetaMask == s.shouldLaunchMetaMask
  }

  /**
   * The states the handlers keep: the address is set exactly while
   * connected, and the balance is never changed from its default.
   */
  predicate Consistent(s: MainUiState) {
    (s.address != "" <==> s.isConnected) && s.balance == "0 ETH"
  }

  // ---------------------------------------------------------------------------
  // connectWallet

  /** `connectWallet` before the wallet answers: only `isConnecting` changes. */
  function StartConnect(s: MainUiState): (t: MainUiState)
    ensures t.isConnecting
    ensures t.(isConnecting := s.isConnecting) == s
  {
    s.(isConnecting := true)
  }

  /** Whether a connect reply carries a non-empty account value. */
  predicate HasAccounts(r: Reply) {
    r.Success? && r.value.Some? && r.value.value != ""
  }

  /** The callback of `ethereum.connect`. */
  function ConnectReplied(s: MainUiState, r: Reply): (step: Step)
    ensures !step.state.isConnecting
    ensures SameOutsideSession(s, step.state)
    ensures HasAccounts(r) ==>
              step.state.isConnected && step.state.address == r.value.value
              && step.message == "Connected successfully!"
    ensures !HasAccounts(r) ==>
              step.state == s.(isConnecting := false)
              && step.message != "Connected successfully!"
  {
    match r
    case Failure(msg) =>
      assert ("Connection failed: " + msg)[7] != "Connected successfully!"[7];
      Step(s.(isConnecting := false), "Connection failed: " + msg)
    case Success(accounts) =>
      if accounts.Some? && accounts.value != "" then
        Step(s.(isConnecting := false, isConnected := true, address := accounts.value),
             "Connected successfully!")
      else
        Step(s.(isConnecting := false), "No accounts returned")
  }

  // ---------------------------------------------------------------------------
  // signMessage

  /** `"Login to PayMoney App - ${System.currentTimeMillis()}"`. */
  function LoginMessage(now: Long): string {
    "Login to PayMoney App - " + LongToString(now)
  }

  /** `"0x" + message.encodeToByteArray().toHex()`. */
  function HexPayload(message: string): string {
    "0x" + ToHex(Utf8Encode(message))
  }

  /** What `signMessage` does before the wallet answers. */
  datatype SignStart = NotConnected(message: string) | Requested(request: EthereumRequest)

  /** `signMessage` up to `ethereum.sendRequest`: the request it sends, if any. */
  function StartSign(s: MainUiState, now: Long): (r: SignStart)
    ensures r.NotConnected? <==> s.address == ""
    ensures r.NotConnected? ==> r.message == "Not connected to wallet"
    ensures r.Requested? ==>
              r.request.rpcMethod == "personal_sign"
              && |r.request.params| == 2 && r.request.params[0] == s.address
              && |r.request.params[1]| >= 2
              && FromHex(r.request.params[1][2..]) == Some(Utf8Encode(LoginMessage(now)))
  {
    if s.address == "" then
      NotConnected("Not connected to wallet")
    else
      var payload := HexPayload(LoginMessage(now));
      assert payload[2..] == ToHex(Utf8Encode(LoginMessage(now)));
      FromHexToHex(Utf8Encode(LoginMessage(now)));
      Requested(EthereumRequest("personal_sign", [s.address, payload]))
  }

  /** The callback of the `personal_sign` request: only `isSigned` changes. */
  function SignReplied(s: MainUiState, r: Reply): (step: Step)
    ensures step.state.isSigned <==> r.Success? && r.value.Some?
    ensures step.state.(isSigned := s.isSigned) == s
  {
    match r
    case Success(signature) =>
      if signature.Some? then Step(s.(isSigned := true), "Signature received!")
      else Step(s.(isSigned := false), "No signature returned")
    case Failure(msg) =>
      Step(s.(isSigned := false), "Signing failed: " + msg)
  }

  // ---------------------------------------------------------------------------
  // getChainId

  /**
   * The `eth_chainId` request `getChainId` sends. It does not check the
   * connection: in a state the handlers keep, the account it names is empty
   * exactly while disconnected.
   */
  function ChainIdRequest(s: MainUiState): (req: EthereumRequest)
    ensures req.rpcMethod == "eth_chainId" && req.params == [s.address, "latest"]
    ensures Consistent(s) ==> (req.params[0] == "" <==> !s.isConnected)
  {
    EthereumRequest("eth_chainId", [s.address, "latest"])
  }

  /**
   * The callback of the `eth_chainId` request. A success whose value is not a
   * string stores the text "null" (`chainIds.toString()` on null).
   */
  function ChainIdReplied(s: MainUiState, r: Reply): (step: Step)
    ensures r.Failure? ==> step.state == s
    ensures r.Success? ==> step.state == s.(chainId := NullableText(r.value))
  {
    match r
    case Success(chainIds) =>
      Step(s.(chainId := NullableText(chainIds)), "Chain ID: " + NullableText(chainIds))
    case Failure(msg) =>
      Step(s, "Chain ID Error: " + msg)
  }

  // ---------------------------------------------------------------------------
  // disconnectWallet

  /** `disconnectWallet`: on return every session field is back to its default. */
  function Disconnected(s: MainUiState, outcome: DisconnectOutcome): (step: Step)
    ensures outcome.Returned? ==>
      step.state == DefaultUiState().(shouldLaunchMetaMask := s.shouldLaunchMetaMask)
    ensures outcome.Threw? ==> step.state == s
  {
    match outcome
    case Returned =>
      Step(s.(isConnected := false, isConnecting := false, address := "",
              balance := "0 ETH", chainId := "", isSigned := false),
           "Disconnected successfully")
    case Threw(msg) =>
      Step(s, "Disconnect error: " + NullableText(msg))
  }

  // ---------------------------------------------------------------------------
  // Properties of the handlers

  lemma DefaultConsistent()
    ensures Consistent(DefaultUiState())
    ensures !DefaultUiState().isConnecting && !DefaultUiState().isConnected
    ensures !DefaultUiState().isSigned && !DefaultUiState().shouldLaunchMetaMask
    ensures DefaultUiState().address == "" && DefaultUiState().chainId == ""
  {
  }

  /** Every handler keeps "address set exactly while connected" and the balance. */
  lemma HandlersPreserveConsistent(s: MainUiState, r: Reply, now: Long, outcome: DisconnectOutcome)
    requires Consistent(s)
    ensures Consistent(StartConnect(s))
    ensures Consistent(ConnectReplied(s, r).state)
    ensures Consistent(SignReplied(s, r).state)
    ensures Consistent(ChainIdReplied(s, r).state)
    ensures Consistent(Disconnected(s, outcome).state)
  {
  }

  /** A disconnect that returns ends in the same state whatever state it started from. */
  lemma DisconnectForgetsSession(s: MainUiState, t: MainUiState)
    requires s.shouldLaunchMetaMask == t.shouldLaunchMetaMask
    ensures Disconnected(s, Returned).state == Disconnected(t, Returned).state
  {
  }

  /** In a consistent state the sign request goes out exactly when connected. */
  lemma SignRequestedIffConnected(s: MainUiState, now: Long)
    requires Consistent(s)
    ensures StartSign(s, now).Requested? <==> s.isConnected
  {
  }

  lemma LoginMessageAscii(now: Long)
    ensures IsAscii(LoginMessage(now))
  {
    var prefix, digits := "Login to PayMoney App - ", LongToString(now);
    var m := LoginMessage(now);
    assert IsAscii(prefix);
    forall i | 0 <= i < |m| ensures m[i] as int < 0x80 {
      if i >= |prefix| {
        assert m[i] == digits[i - |prefix|];
      } else {
        assert m[i] == prefix[i];
      }
    }
  }

  /**
   * The signed payload is "0x" then two hex digits per character of the
   * (ASCII) login message, and decoding it gives the message back.
   */
  lemma SignPayloadShape(s: MainUiState, now: Long)
    requires s.address != ""
    ensures |StartSign(s, now).request.params[1]| == 2 + 2 * |LoginMessage(now)|
    ensures StartSign(s, now).request.params[1][..2] == "0x"
    ensures Utf8Decode(FromHex(StartSign(s, now).request.params[1][2..]).value)
      == Some(LoginMessage(now))
  {
    var m := LoginMessage(now);
    LoginMessageAscii(now);
    Utf8EncodeAscii(m);
    Utf8RoundTrip(m);
    var payload := StartSign(s, now).request.params[1];
    assert payload == "0x" + ToHex(Utf8Encode(m));
  }

  // ---------------------------------------------------------------------------
  // Sequential sessions

  /**
   * One user action carried through to the wallet's answer, with no other
   * action in between: the handlers run one after another, never interleaved.
   */
  datatype Exchange =
    | ConnectExchange(connectReply: Reply)
    | SignExchange(now: Long, signReply: Reply)
    | ChainIdExchange(chainReply: Reply)
    | DisconnectExchange(outcome: DisconnectOutcome)

  function Perform(s: MainUiState, e: Exchange): MainUiState {
    match e
    case ConnectExchange(r) => ConnectReplied(StartConnect(s), r).state
    case SignExchange(now, r) =>
      (match StartSign(s, now)
       case NotConnected(_) => s
       case Requested(_) => SignReplied(s, r).state)
    case ChainIdExchange(r) => ChainIdReplied(s, r).state
    case DisconnectExchange(o) => Disconnected(s, o).state
  }

  function Run(s: MainUiState, trace: seq<Exchange>): MainUiState
    decreases |trace|
  {
    if trace == [] then s else Run(Perform(s, trace[0]), trace[1..])
  }

  /** The states sequential sessions keep between actions. */
  predicate Settled(s: MainUiState) {
    Consistent(s) && !s.isConnecting && (s.isSigned ==> s.isConnected)
  }

  lemma PerformSettled(s: MainUiState, e: Exchange)
    requires Settled(s)
    ensures Settled(Perform(s, e))
  {
  }

  /**
   * From the initial state, a session of complete exchanges never leaves a
   * connect pending, never shows an address while disconnected and never
   * reports a signature while disconnected.
   */
  lemma {:induction false} RunSettled(s: MainUiState, trace: seq<Exchange>)
    requires Settled(s)
    ensures Settled(Run(s, trace))
    decreases |trace|
  {
    if trace != [] {
      PerformSettled(s, trace[0]);
      RunSettled(Perform(s, trace[0]), trace[1..]);
    }
  }

  lemma ReachableSettled(trace: seq<Exchange>)
    ensures Settled(Run(DefaultUiState(), trace))
  {
    RunSettled(DefaultUiState(), trace);
  }

  /**
   * A sign answer that arrives after the session was closed marks the
   * disconnected state as signed: the handler does not look at the state.
   */
  lemma LateSignReplySignsDisconnected()
    ensures var s := Disconnected(DefaultUiState(), Returned).state;
      !SignReplied(s, Success(Some("sig"))).state.isConnected
      && SignReplied(s, Success(Some("sig"))).state.isSigned
  {
  }
}
