/**
 * `MainViewModel`: the object that holds the current `MainUiState` and the
 * pending one-shot `UiEvent`, and whose handlers update them in place. Each
 * handler is proved to move the state exactly as the pure transition of the
 * same name in `Session` says, so the properties proved there carry over.
 * The wallet calls a handler makes are returned as values; the wallet's
 * answers come back through the `On...Result` methods.
 */
module ViewModel {
  import opened Wrappers
  import opened TextEncoding
  import opened Session

  /** The call a dispatched intent makes on the wallet. */
  datatype WalletCall = ConnectCall | RequestCall(request: EthereumRequest) | DisconnectCall | NoCall

  class MainViewModel {
    var uiState: MainUiState
    var uiEvent: Option<UiEvent>

    /** The object invariant: the state is one the handlers keep. */
    ghost predicate Valid()
      reads this
    {
      Consistent(uiState)
    }

    constructor ()
      ensures Valid()
      ensures uiState == DefaultUiState() && uiEvent == None
    {
      uiState := DefaultUiState();
      uiEvent := None;
    }

    /** `showMessage`: the message becomes the pending event. */
    method ShowMessage(message: string)
      modifies this
      ensures uiEvent == Some(UiEvent.ShowMessage(message))
      ensures uiState == old(uiState)
    {
      uiEvent := Some(UiEvent.ShowMessage(message));
    }

    /** `updateState`: replaces the state by `update` of it. */
    method UpdateState(update: MainUiState -> MainUiState)
      modifies this
      ensures uiState == update(old(uiState))
      ensures uiEvent == old(uiEvent)
    {
      uiState := update(uiState);
    }

    /** `connectWallet` up to the call to `ethereum.connect`. */
    method ConnectWallet()
      requires Valid()
      modifies this
      ensures Valid()
      ensures uiState == StartConnect(old(uiState))
      ensures uiEvent == old(uiEvent)
    {
      UpdateState((s: MainUiState) => s.(isConnecting := true));
    }

    /** The callback passed to `ethereum.connect`. */
    method OnConnectResult(result: Reply)
      requires Valid()
      modifies this
      ensures Valid()
      ensures uiState == ConnectReplied(old(uiState), result).state
      ensures uiEvent == Some(UiEvent.ShowMessage(ConnectReplied(old(uiState), result).message))
    {
      match result {
        case Failure(msg) =>
          UpdateState((s: MainUiState) => s.(isConnecting := false));
          ShowMessage("Connection failed: " + msg);
        case Success(accounts) =>
          if accounts.Some? && accounts.value != "" {
            UpdateState((s: MainUiState) =>
              s.(isConnecting := false, isConnected := true, address := accounts.value));
            ShowMessage("Connected successfully!");
          } else {
            UpdateState((s: MainUiState) => s.(isConnecting := false));
            ShowMessage("No accounts returned");
          }
      }
      HandlersPreserveConsistent(old(uiState), result, 0, Returned);
    }

    /**
     * `signMessage` up to `ethereum.sendRequest`: the request it sends, or
     * none and the "Not connected" message when there is no address.
     */
    method SignMessage(now: Long) returns (request: Option<EthereumRequest>)
      requires Valid()
      modifies this
      ensures Valid()
      ensures uiState == old(uiState)
      ensures StartSign(old(uiState), now).NotConnected? ==>
                request == None
                && uiEvent == Some(UiEvent.ShowMessage(StartSign(old(uiState), now).message))
      ensures StartSign(old(uiState), now).Requested? ==>
                request == Some(StartSign(old(uiState), now).request) && uiEvent == old(uiEvent)
    {
      var address := uiState.address;
      if address == "" {
        ShowMessage("Not connected to wallet");
        return None;
      }
      var message := LoginMessage(now);
      var hexMessage := HexPayload(message);
      request := Some(EthereumRequest("personal_sign", [address, hexMessage]));
    }

    /** The callback of the `personal_sign` request. */
    method OnSignResult(result: Reply)
      requires Valid()
      modifies this
      ensures Valid()
      ensures uiState == SignReplied(old(uiState), result).state
      ensures uiEvent == Some(UiEvent.ShowMessage(SignReplied(old(uiState), result).message))
    {
      match result {
        case Success(signature) =>
          if signature.Some? {
            ShowMessage("Signature received!");
            UpdateState((s: MainUiState) => s.(isSigned := true));
          } else {
            ShowMessage("No signature returned");
            UpdateState((s: MainUiState) => s.(isSigned := false));
          }
        case Failure(msg) =>
          ShowMessage("Signing failed: " + msg);
          UpdateState((s: MainUiState) => s.(isSigned := false));
      }
    }

    /**
     * `getChainId` up to `ethereum.sendRequest`: it only reads the address,
     * which is empty exactly while disconnected.
     */
    method GetChainId() returns (request: EthereumRequest)
      ensures request == ChainIdRequest(uiState)
      ensures Valid() ==> (request.params[0] == "" <==> !uiState.isConnected)
    {
      request := ChainIdRequest(uiState);
    }

    /** The callback of the `eth_chainId` request. */
    method OnChainIdResult(result: Reply)
      requires Valid()
      modifies this
      ensures Valid()
      ensures uiState == ChainIdReplied(old(uiState), result).state
      ensures uiEvent == Some(UiEvent.ShowMessage(ChainIdReplied(old(uiState), result).message))
    {
      match result {
        case Success(chainIds) =>
          ShowMessage("Chain ID: " + NullableText(chainIds));
          UpdateState((s: MainUiState) => s.(chainId := NullableText(chainIds)));
        case Failure(msg) =>
          ShowMessage("Chain ID Error: " + msg);
      }
    }

    /** `disconnectWallet`, given whether `ethereum.disconnect()` returned or threw. */
    method DisconnectWallet(outcome: DisconnectOutcome)
      requires Valid()
      modifies this
      ensures Valid()
      ensures uiState == Disconnected(old(uiState), outcome).state
      ensures uiEvent == Some(UiEvent.ShowMessage(Disconnected(old(uiState), outcome).message))
    {
      match outcome {
        case Returned =>
          UpdateState((s: MainUiState) =>
            s.(isConnected := false, isConnecting := false, address := "",
               balance := "0 ETH", chainId := "", isSigned := false));
          ShowMessage("Disconnected successfully");
        case Threw(msg) =>
          ShowMessage("Disconnect error: " + NullableText(msg));
      }
    }

    /** `clearEvent`: the pending event is consumed. */
    method ClearEvent()
      modifies this
      ensures uiEvent == None
      ensures uiState == old(uiState)
    {
      uiEvent := None;
    }

    /**
     * `eventSink`: routes an intent to its handler and returns the wallet
     * call the handler makes. `now` is the clock reading a sign uses and
     * `outcome` what `ethereum.disconnect()` does if it is called.
     */
    method EventSink(event: Session.EventSink, now: Long, outcome: DisconnectOutcome)
      returns (call: WalletCall)
      requires Valid()
      modifies this
      ensures Valid()
      ensures event.Connect? ==>
                call == ConnectCall && uiState == StartConnect(old(uiState)) && uiEvent == old(uiEvent)
      ensures event.Disconnect? ==>
                call == DisconnectCall && uiState == Disconnected(old(uiState), outcome).state
                && uiEvent == Some(UiEvent.ShowMessage(Disconnected(old(uiState), outcome).message))
      ensures event.SignMessage? ==>
                uiState == old(uiState)
                && (call == NoCall <==> !old(uiState).isConnected)
                && (call != NoCall ==> call == RequestCall(StartSign(old(uiState), now).request))
      ensures event.SignMessage? && !old(uiState).isConnected ==>
                uiEvent == Some(UiEvent.ShowMessage("Not connected to wallet"))
      ensures event.SignMessage? && old(uiState).isConnected ==> uiEvent == old(uiEvent)
    {
      match event {
        case Connect =>
          ConnectWallet();
          call := ConnectCall;
        case Disconnect =>
          DisconnectWallet(outcome);
          call := DisconnectCall;
        case SignMessage =>
          var request := SignMessage(now);
          call := if request.Some? then RequestCall(request.value) else NoCall;
      }
    }
  }
}
