/**
 * The decisions `MainScreen(viewModel)` takes from the current state: the
 * status text, whether the address line is shown, what the main button
 * dispatches, whether it is enabled and what it says, the Sign Message
 * button, the balance text, and the consumption of the pending event.
 */
module MainScreen {
  import opened Wrappers
  import opened TextEncoding
  import opened Session
  import opened ViewModel

  /** The status line at the top of the screen. */
  function StatusText(s: MainUiState): (text: string)
    ensures text == "Connected" <==> s.isConnected
    ensures text == "Not Connected" <==> !s.isConnected
  {
    if s.isConnected then "Connected" else "Not Connected"
  }

  /** The address line, present only while there is an address. */
  function AddressLine(s: MainUiState): (line: Option<string>)
    ensures line.Some? <==> s.address != ""
    ensures line.Some? ==> |line.value| >= 9 && line.value[9..] == s.address
  {
    if s.address != "" then Some("Address: " + s.address) else None
  }

  /** The intent the main button dispatches when clicked. */
  function MainButtonEvent(s: MainUiState): (event: EventSink)
    ensures event == Disconnect <==> s.isConnected
    ensures event == Connect <==> !s.isConnected
  {
    if s.isConnected then Disconnect else Connect
  }

  /**
   * The main button can be clicked unless a connect is in flight: exactly when
   * its label is not "Connecting...", and always between complete actions.
   */
  function MainButtonEnabled(s: MainUiState): (enabled: bool)
    ensures enabled <==> MainButtonLabel(s) != "Connecting..."
    ensures Settled(s) ==> enabled
  {
    !s.isConnecting
  }

  /** The main button's label: connecting first, then connected, then idle. */
  function MainButtonLabel(s: MainUiState): (shown: string)
    ensures shown == "Connecting..." <==> s.isConnecting
    ensures shown == "Disconnect Wallet" <==> !s.isConnecting && s.isConnected
    ensures shown == "Connect Wallet" <==> !s.isConnecting && !s.isConnected
  {
    if s.isConnecting then "Connecting..."
    else if s.isConnected then "Disconnect Wallet"
    else "Connect Wallet"
  }

  /**
   * The Sign Message button can be clicked only while connected; in a state
   * the handlers keep, that is exactly when `signMessage` finds an address.
   */
  function SignButtonEnabled(s: MainUiState): (enabled: bool)
    ensures enabled <==> s.isConnected
    ensures Consistent(s) ==> (enabled <==> s.address != "")
  {
    s.isConnected
  }

  /** The balance line; no handler changes the balance, so it always reads 0 ETH. */
  function BalanceText(s: MainUiState): (text: string)
    ensures |text| == 9 + |s.balance| && text[..9] == "Balance: " && text[9..] == s.balance
    ensures Consistent(s) ==> text == "Balance: 0 ETH"
  {
    "Balance: " + s.balance
  }

  /** When the main button can be clicked, its label names the intent it dispatches. */
  lemma MainButtonLabelNamesEvent(s: MainUiState)
    requires MainButtonEnabled(s)
    ensures MainButtonLabel(s) == "Disconnect Wallet" ==> MainButtonEvent(s) == Disconnect
    ensures MainButtonLabel(s) == "Connect Wallet" ==> MainButtonEvent(s) == Connect
  {
  }

  /**
   * In a state the handlers keep, the address line is shown exactly when the
   * status says "Connected", and the Sign Message button is enabled exactly
   * when signing sends a request.
   */
  lemma ScreenAgreesWithSession(s: MainUiState, now: Long)
    requires Consistent(s)
    ensures AddressLine(s).Some? <==> StatusText(s) == "Connected"
    ensures SignButtonEnabled(s) <==> StartSign(s, now).Requested?
  {
  }

  /** A click on the main button (it cannot be clicked while disabled). */
  method ClickMainButton(vm: MainViewModel, now: Long, outcome: DisconnectOutcome)
    returns (call: WalletCall)
    requires vm.Valid() && MainButtonEnabled(vm.uiState)
    modifies vm
    ensures vm.Valid()
    ensures old(vm.uiState).isConnected ==>
              call == DisconnectCall && vm.uiState == Disconnected(old(vm.uiState), outcome).state
              && vm.uiEvent == Some(UiEvent.ShowMessage(Disconnected(old(vm.uiState), outcome).message))
    ensures !old(vm.uiState).isConnected ==>
              call == ConnectCall && vm.uiState == StartConnect(old(vm.uiState))
              && vm.uiEvent == old(vm.uiEvent)
  {
    if vm.uiState.isConnected {
      call := vm.EventSink(Disconnect, now, outcome);
    } else {
      call := vm.EventSink(Connect, now, outcome);
    }
  }

  /** A click on the enabled Sign Message button always sends `personal_sign`. */
  method ClickSignButton(vm: MainViewModel, now: Long, outcome: DisconnectOutcome)
    returns (call: WalletCall)
    requires vm.Valid() && SignButtonEnabled(vm.uiState)
    modifies vm
    ensures vm.Valid() && vm.uiState == old(vm.uiState)
    ensures vm.uiEvent == old(vm.uiEvent)
    ensures call.RequestCall? && call.request == StartSign(old(vm.uiState), now).request
    ensures call.request.rpcMethod == "personal_sign"
    ensures |call.request.params| == 2 && call.request.params[0] == vm.uiState.address
    ensures FromHex(call.request.params[1][2..]) == Some(Utf8Encode(LoginMessage(now)))
  {
    call := vm.EventSink(SignMessage, now, outcome);
  }

  /**
   * The `LaunchedEffect(uiEvent)` block: a pending message is printed and
   * then cleared; with nothing pending nothing happens.
   */
  method ConsumeEvent(vm: MainViewModel) returns (printed: Option<string>)
    modifies vm
    ensures vm.uiEvent == None
    ensures vm.uiState == old(vm.uiState)
    ensures old(vm.uiEvent).Some? ==> printed == Some("Message: " + old(vm.uiEvent).value.message)
    ensures old(vm.uiEvent).None? ==> printed == None
  {
    match vm.uiEvent {
      case Some(event) =>
        printed := Some("Message: " + event.message);
        vm.ClearEvent();
      case None =>
        printed := None;
    }
  }
}
