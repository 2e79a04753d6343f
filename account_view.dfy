/**
 * The rows and buttons of `AccountView(uiState, onEvent)`: each row's text
 * and the intent each button emits, as functions of the state.
 */
module AccountView {
  import opened TextEncoding
  import opened Session

  /** The network row, fixed to Ethereum. */
  const NetworkLabel: string := "Ethereum"

  /** The status row: "Signed" over "Connected", empty while disconnected. */
  function StatusLabel(s: MainUiState): (shown: string)
    ensures shown == "Signed" <==> s.isConnected && s.isSigned
    ensures shown == "Connected" <==> s.isConnected && !s.isSigned
    ensures shown == "" <==> !s.isConnected
  {
    if s.isConnected && s.isSigned then "Signed"
    else if s.isConnected then "Connected"
    else ""
  }

  /**
   * The chain-ID row. The empty-string fallback coincides with the value
   * itself, so the row always shows `chainId` as it is.
   */
  function ChainIdLabel(s: MainUiState): (shown: string)
    ensures shown == s.chainId
  {
    if s.chainId != "" then s.chainId else ""
  }

  /**
   * The account row: an address of ten characters or more is shortened to
   * its first four and last four characters around "..."; a shorter one
   * shows nothing.
   */
  function AccountLabel(address: string): (shown: string)
    ensures |address| >= 10 ==>
              |shown| == 11 && shown[..4] == address[..4] && shown[4..7] == "..."
              && shown[7..] == address[|address| - 4..]
    ensures |address| < 10 ==> shown == ""
  {
    if |address| >= 10 then address[..4] + "..." + address[|address| - 4..] else ""
  }

  /** The balance row shows the balance text unchanged, which stays "0 ETH". */
  function BalanceLabel(s: MainUiState): (shown: string)
    ensures shown == s.balance
    ensures Consistent(s) ==> shown == "0 ETH"
  {
    s.balance
  }

  /** The intent of the "Connect and Sign Metamask" button. */
  function PrimaryButtonEvent(s: MainUiState): (event: EventSink)
    ensures event == SignMessage <==> s.isConnected
    ensures event == Connect <==> !s.isConnected
  {
    if !s.isConnected then Connect else SignMessage
  }

  /** The intent of the "Disconnect" button, whatever the state. */
  function DisconnectButtonEvent(s: MainUiState): (event: EventSink)
    ensures event == Disconnect
  {
    Disconnect
  }

  /**
   * Two long addresses get the same account row exactly when they agree on
   * their first four and on their last four characters.
   */
  lemma AccountLabelSameIffSameEnds(a: string, b: string)
    requires |a| >= 10 && |b| >= 10
    ensures AccountLabel(a) == AccountLabel(b) <==> a[..4] == b[..4] && a[|a| - 4..] == b[|b| - 4..]
  {
    if AccountLabel(a) == AccountLabel(b) {
      assert AccountLabel(a)[..4] == AccountLabel(b)[..4];
      assert AccountLabel(a)[7..] == AccountLabel(b)[7..];
    }
  }

  /**
   * The Disconnect button ends the session shown: when the wallet's
   * `disconnect()` returns, the status and account rows are empty and the
   * primary button connects again; when it throws, every row stays as it was.
   */
  lemma DisconnectButtonEndsSession(s: MainUiState, outcome: DisconnectOutcome)
    ensures DisconnectButtonEvent(s) == Disconnect
    ensures var t := Disconnected(s, outcome).state;
      outcome.Returned? ==>
        StatusLabel(t) == "" && AccountLabel(t.address) == "" && ChainIdLabel(t) == ""
        && PrimaryButtonEvent(t) == Connect
    ensures var t := Disconnected(s, outcome).state;
      outcome.Threw? ==>
        StatusLabel(t) == StatusLabel(s) && AccountLabel(t.address) == AccountLabel(s.address)
        && ChainIdLabel(t) == ChainIdLabel(s) && PrimaryButtonEvent(t) == PrimaryButtonEvent(s)
  {
  }

  /**
   * In a state the handlers keep, an account is shown only while connected,
   * and the primary button signs exactly when signing sends a request.
   */
  lemma AccountViewAgreesWithSession(s: MainUiState, now: Long)
    requires Consistent(s)
    ensures AccountLabel(s.address) != "" ==> StatusLabel(s) != ""
    ensures PrimaryButtonEvent(s) == SignMessage <==> StartSign(s, now).Requested?
  {
  }
}
