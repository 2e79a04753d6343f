# PayMoney wallet session — a Dafny model

This project models the part of the PayMoney Android demo that makes its own
decisions around a MetaMask wallet session.

- **`MainViewModel`** holds a `MainUiState` record and a one-shot `UIEvent`
  message. Its handlers change them:
  - connect and the connect callback;
  - sign-message and the sign callback;
  - the chain-id callback;
  - disconnect;
  - clearing the event.
- **`MainScreen`** (in `MainActivity.kt`) and **`AccountView`** decide from
  that state which intent each button dispatches, whether the button is
  enabled, and what the labels and rows say.
- **`OffersView`** keeps a chain and a currency selection. After the chain
  changes, the currency is reconciled with a fixed table of allowed
  currencies.

The wallet SDK is not modelled. Its answers are inputs to the callback
handlers:
- `Reply.Failure(message)`;
- `Reply.Success(Some(text))`, an `Item` success whose value is a string;
- `Reply.Success(None)`, an `Item` success whose value is null (for the sign
  and chain-id callbacks, also any success without a string value);
- for `disconnect()`, whether it returned or threw.

A connect success that is not an `Item` cannot be represented (see Left out).

The requests the handlers send to the wallet are returned as values
(`EthereumRequest`, `WalletCall`).

Modules, one per file:
- `Wrappers` (wrappers.dfy): Kotlin nullables as `Option`.
- `TextEncoding` (text_encoding.dfy): the encodings used to build the
  `personal_sign` payload. These are `String.encodeToByteArray()` (UTF-8),
  `ByteArray.toHex()` over Kotlin's signed `Byte`, and the decimal text of a
  `Long`. Each one has a decoder and a round-trip lemma.
- `Session` (session.dfy): the `MainUiState` record. Each handler is a pure
  transition to a new state plus the message it shows. It also proves the
  invariants the handlers keep, including over whole sequential sessions.
- `ViewModel` (view_model.dfy): the `MainViewModel` class. Its fields are
  updated in place, and each method is proved to follow its `Session`
  transition.
- `MainScreen` (main_screen.dfy), `AccountView` (account_view.dfy),
  `Offers` (offers_view.dfy): the presentation decision tables. `Offers`
  also has a class for the remembered chain and currency selection.

Main results:
- Every handler keeps two facts (`Session.Consistent`): the address is
  non-empty exactly while connected, and the balance stays `"0 ETH"`.
- In a session where each action runs to its answer before the next one
  starts, more holds (`Session.RunSettled`):
  - no connect is left pending;
  - "signed" implies "connected".
- The sign payload is `"0x"` followed by two lower-case hex digits per byte.
  Decoding the hex and then the UTF-8 gives back the login message.
- The enabled Sign Message button always sends a `personal_sign` request.

Facts about the code that the model records:
- `MainActivity.kt:124` dispatches `EventSink.GetBalance`, which `EventSink`
  (`MainViewModel.kt:18-22`) does not declare, and no handler writes
  `balance` except to reset it to `"0 ETH"` in `disconnectWallet`. The balance
  therefore always reads `"0 ETH"` (see Left out).
- The sign callback (`MainViewModel.kt:116-139`) sets `isSigned` without
  looking at `isConnected`. "Signed" implies "connected" only when the sign
  answer arrives before any disconnect
  (`Session.LateSignReplySignsDisconnected`).

## Model

| member | source | states |
|---|---|---|
| `TextEncoding.Unsigned` | app/src/main/java/com/example/paymoney/MainViewModel.kt:195 | the octet `%x` prints for a signed Kotlin byte is below 256 and congruent to it mod 256 |
| `TextEncoding.FromUnsigned` | app/src/main/java/com/example/paymoney/MainViewModel.kt:109 | storing an octet in a byte array and reading it back as an octet gives the same octet |
| `TextEncoding.FormatByte` | app/src/main/java/com/example/paymoney/MainViewModel.kt:195 | `"%02x".format(b)` is exactly two lower-case hex digits |
| `TextEncoding.ToHex` | app/src/main/java/com/example/paymoney/MainViewModel.kt:194-195 | `toHex` gives exactly 2 characters per byte, all lower-case hex digits |
| `TextEncoding.FromHex` | app/src/main/java/com/example/paymoney/MainViewModel.kt:194-195 | decoding succeeds exactly on even-length texts of lower-case hex digits, and then gives half as many bytes as characters |
| `TextEncoding.FromHexToHex` | app/src/main/java/com/example/paymoney/MainViewModel.kt:194-195 | decoding the `toHex` text gives back the original bytes |
| `TextEncoding.ToHexFromHex` | app/src/main/java/com/example/paymoney/MainViewModel.kt:194-195 | every even-length lower-case hex text decodes, and is the `toHex` of the bytes it decodes to, so `toHex` is a bijection onto those texts |
| `TextEncoding.ToHexInjective` | app/src/main/java/com/example/paymoney/MainViewModel.kt:194-195 | different byte arrays give different hex payloads |
| `TextEncoding.EncodeChar` | app/src/main/java/com/example/paymoney/MainViewModel.kt:109 | one character takes 1 to 4 UTF-8 bytes, and exactly 1 (its own code) when it is ASCII |
| `TextEncoding.Utf8Encode` | app/src/main/java/com/example/paymoney/MainViewModel.kt:109 | `encodeToByteArray` gives between 1 and 4 bytes per character |
| `TextEncoding.Utf8EncodeAscii` | app/src/main/java/com/example/paymoney/MainViewModel.kt:109 | an ASCII string encodes to one byte per character, each equal to the character's code |
| `TextEncoding.Utf8RoundTrip` | app/src/main/java/com/example/paymoney/MainViewModel.kt:109 | UTF-8 decoding of `encodeToByteArray` gives back the string |
| `TextEncoding.NatToDecimal` | app/src/main/java/com/example/paymoney/MainViewModel.kt:108 | the decimal text of a number is non-empty, all digits, and has no leading zero |
| `TextEncoding.DecimalRoundTrip` | app/src/main/java/com/example/paymoney/MainViewModel.kt:108 | reading the decimal text back gives the number |
| `TextEncoding.LongToString` | app/src/main/java/com/example/paymoney/MainViewModel.kt:108 | a `Long` in a template is ASCII: a minus sign exactly when negative, then the canonical digits of its magnitude (at least one, no leading zero) |
| `Session.DefaultConsistent` | app/src/main/java/com/example/paymoney/MainViewModel.kt:24-32 | the default state is consistent: not connecting, not connected, not signed, no launch request, empty address and chain id, and a `"0 ETH"` balance |
| `Session.StartConnect` | app/src/main/java/com/example/paymoney/MainViewModel.kt:69 | starting a connect sets `isConnecting` and changes no other field |
| `Session.ConnectReplied` | app/src/main/java/com/example/paymoney/MainViewModel.kt:71-97 | after any connect answer `isConnecting` is false; a non-empty account value connects, stores that address and reports success; an error or an empty/null value changes only `isConnecting` and reports a failure; balance, chain id, signed and launch flag are never touched |
| `Session.StartSign` | app/src/main/java/com/example/paymoney/MainViewModel.kt:101-114 | no request exactly when the address is empty, with "Not connected to wallet"; otherwise `personal_sign` with `[address, payload]`, whose hex part decodes to the UTF-8 bytes of the login message |
| `Session.SignReplied` | app/src/main/java/com/example/paymoney/MainViewModel.kt:116-139 | `isSigned` becomes true exactly for a success whose value is a string; no other field changes |
| `Session.ChainIdRequest` | app/src/main/java/com/example/paymoney/MainViewModel.kt:145-148 | the chain-id request is `eth_chainId` with `[address, "latest"]`; it does not check the connection, and in a consistent state its account is empty exactly while disconnected |
| `Session.ChainIdReplied` | app/src/main/java/com/example/paymoney/MainViewModel.kt:149-167 | an error leaves the state unchanged; a success stores the value as the chain id, or the text "null" when it is not a string |
| `Session.Disconnected` | app/src/main/java/com/example/paymoney/MainViewModel.kt:171-188 | a disconnect that returns gives the default state except for `shouldLaunchMetaMask`, whatever the prior state; one that throws leaves the state unchanged |
| `Session.HandlersPreserveConsistent` | app/src/main/java/com/example/paymoney/MainViewModel.kt:68-188 | every handler keeps "address non-empty exactly when connected" and the `"0 ETH"` balance |
| `Session.DisconnectForgetsSession` | app/src/main/java/com/example/paymoney/MainViewModel.kt:174-183 | a successful disconnect ends in the same state from any two states with the same launch flag |
| `Session.SignRequestedIffConnected` | app/src/main/java/com/example/paymoney/MainViewModel.kt:102-106 | in a consistent state, signing sends a request exactly when connected |
| `Session.LoginMessageAscii` | app/src/main/java/com/example/paymoney/MainViewModel.kt:108 | the login message is pure ASCII |
| `Session.SignPayloadShape` | app/src/main/java/com/example/paymoney/MainViewModel.kt:108-113 | the payload starts with "0x" and has length 2 + 2·\|message\|; decoding its hex and then its UTF-8 gives the login message back |
| `Session.PerformSettled` | app/src/main/java/com/example/paymoney/MainViewModel.kt:68-188 | one complete action (request and its answer) keeps: consistent, no connect pending, signed only while connected |
| `Session.RunSettled` | app/src/main/java/com/example/paymoney/MainViewModel.kt:68-188 | any sequence of complete actions keeps those facts |
| `Session.ReachableSettled` | app/src/main/java/com/example/paymoney/MainViewModel.kt:24-32 | every state reached from the default state by complete actions satisfies those facts |
| `Session.LateSignReplySignsDisconnected` | app/src/main/java/com/example/paymoney/MainViewModel.kt:119-125 | the sign callback does not look at the connection: an answer arriving after a disconnect marks a disconnected state as signed |
| `ViewModel.MainViewModel.constructor` | app/src/main/java/com/example/paymoney/MainViewModel.kt:38-42 | a new view model has the default state and no pending event |
| `ViewModel.MainViewModel.ShowMessage` | app/src/main/java/com/example/paymoney/MainViewModel.kt:48-52 | the message becomes the pending event and the state is untouched |
| `ViewModel.MainViewModel.UpdateState` | app/src/main/java/com/example/paymoney/MainViewModel.kt:54-56 | the state becomes the update of the old state; the event is untouched |
| `ViewModel.MainViewModel.ConnectWallet` | app/src/main/java/com/example/paymoney/MainViewModel.kt:68-69 | the state moves as `StartConnect` and the pending event is untouched |
| `ViewModel.MainViewModel.OnConnectResult` | app/src/main/java/com/example/paymoney/MainViewModel.kt:71-97 | the state moves as `ConnectReplied`, its message becomes pending, and the invariant is kept |
| `ViewModel.MainViewModel.SignMessage` | app/src/main/java/com/example/paymoney/MainViewModel.kt:101-114 | the state is unchanged; the request is the one `StartSign` sends, or none with the "Not connected" message pending |
| `ViewModel.MainViewModel.OnSignResult` | app/src/main/java/com/example/paymoney/MainViewModel.kt:116-139 | the state moves as `SignReplied` and its message becomes pending |
| `ViewModel.MainViewModel.GetChainId` | app/src/main/java/com/example/paymoney/MainViewModel.kt:142-148 | the request is `Session.ChainIdRequest` of the current state; with the invariant, its account is empty exactly while disconnected |
| `ViewModel.MainViewModel.OnChainIdResult` | app/src/main/java/com/example/paymoney/MainViewModel.kt:149-167 | the state moves as `ChainIdReplied` and its message becomes pending |
| `ViewModel.MainViewModel.DisconnectWallet` | app/src/main/java/com/example/paymoney/MainViewModel.kt:171-188 | the state moves as `Disconnected` and its message becomes pending |
| `ViewModel.MainViewModel.ClearEvent` | app/src/main/java/com/example/paymoney/MainViewModel.kt:190-192 | the pending event becomes null and the state is untouched |
| `ViewModel.MainViewModel.EventSink` | app/src/main/java/com/example/paymoney/MainViewModel.kt:58-66 | Connect starts a connect, calls `connect` and leaves the pending event; Disconnect runs the disconnect, calls `disconnect` and leaves its message pending; SignMessage keeps the state and sends the `StartSign` request exactly when connected, leaving the pending event, and otherwise leaves "Not connected to wallet" pending |
| `MainScreen.StatusText` | app/src/main/java/com/example/paymoney/MainActivity.kt:74-78 | the status reads "Connected" exactly when connected and "Not Connected" otherwise |
| `MainScreen.AddressLine` | app/src/main/java/com/example/paymoney/MainActivity.kt:82-89 | the address line is shown exactly when the address is non-empty, and it ends with the address |
| `MainScreen.MainButtonEvent` | app/src/main/java/com/example/paymoney/MainActivity.kt:92-98 | the main button dispatches Disconnect exactly when connected and Connect otherwise |
| `MainScreen.MainButtonEnabled` | app/src/main/java/com/example/paymoney/MainActivity.kt:99 | the main button is enabled exactly when its label is not "Connecting...", and always between complete actions (`Session.Settled`) |
| `MainScreen.MainButtonLabel` | app/src/main/java/com/example/paymoney/MainActivity.kt:102-106 | each of the three labels appears exactly in its case: connecting first, then connected, then neither |
| `MainScreen.SignButtonEnabled` | app/src/main/java/com/example/paymoney/MainActivity.kt:111-117 | the Sign Message button is enabled exactly when connected; in a consistent state, exactly when `signMessage` finds an address |
| `MainScreen.BalanceText` | app/src/main/java/com/example/paymoney/MainActivity.kt:134-138 | the balance line is "Balance: " followed by the balance; in a consistent state it is always "Balance: 0 ETH" |
| `MainScreen.MainButtonLabelNamesEvent` | app/src/main/java/com/example/paymoney/MainActivity.kt:92-106 | when the main button is enabled, its label names the intent it dispatches |
| `MainScreen.ScreenAgreesWithSession` | app/src/main/java/com/example/paymoney/MainActivity.kt:74-117 | in a consistent state the address is shown exactly when the status is "Connected", and the sign button is enabled exactly when signing sends a request |
| `MainScreen.ClickMainButton` | app/src/main/java/com/example/paymoney/MainActivity.kt:91-99 | clicking the enabled main button disconnects when connected, leaving the disconnect message pending; otherwise it starts a connect and leaves the pending event as it was |
| `MainScreen.ClickSignButton` | app/src/main/java/com/example/paymoney/MainActivity.kt:111-117 | clicking the enabled Sign Message button keeps the state and the pending event, and always sends the `StartSign` request: `personal_sign` for the current address with a payload that decodes to the UTF-8 login message |
| `MainScreen.ConsumeEvent` | app/src/main/java/com/example/paymoney/MainActivity.kt:56-65 | a pending message is printed and the slot is cleared to null; with none pending nothing happens |
| `AccountView.StatusLabel` | app/src/main/java/com/example/paymoney/views/AccountView.kt:49 | "Signed" exactly when connected and signed, "Connected" exactly when connected and not signed, "" exactly when not connected |
| `AccountView.ChainIdLabel` | app/src/main/java/com/example/paymoney/views/AccountView.kt:50 | the chain-id row always shows `chainId` unchanged: the empty fallback is the value itself |
| `AccountView.AccountLabel` | app/src/main/java/com/example/paymoney/views/AccountView.kt:51-56 | an address of 10 or more characters shows as its first 4, "...", its last 4, 11 characters in all; a shorter one shows "" |
| `AccountView.BalanceLabel` | app/src/main/java/com/example/paymoney/views/AccountView.kt:57 | the balance row shows the balance; in a consistent state it is always "0 ETH" |
| `AccountView.PrimaryButtonEvent` | app/src/main/java/com/example/paymoney/views/AccountView.kt:64-71 | the primary button emits SignMessage exactly when connected and Connect otherwise |
| `AccountView.DisconnectButtonEndsSession` | app/src/main/java/com/example/paymoney/views/AccountView.kt:49-82 | the Disconnect button always emits Disconnect; when `disconnect()` returns, the status, account and chain-id rows are empty and the primary button connects; when it throws, every row and the primary button stay as they were |
| `AccountView.AccountLabelSameIffSameEnds` | app/src/main/java/com/example/paymoney/views/AccountView.kt:53-55 | two long addresses share an account row exactly when their first 4 and last 4 characters agree |
| `AccountView.AccountViewAgreesWithSession` | app/src/main/java/com/example/paymoney/views/AccountView.kt:49-71 | in a consistent state an account is shown only with a non-empty status, and the primary button signs exactly when signing sends a request |
| `Offers.AvailableCurrencies` | app/src/main/java/com/example/paymoney/views/OffersView.kt:25-36 | Polygon allows [USDC], Ethereum allows [USDC, USDT], and any other chain allows nothing |
| `Offers.Reconciled` | app/src/main/java/com/example/paymoney/views/OffersView.kt:38-42 | an allowed currency is kept; otherwise it becomes the first allowed one, or "USDC" if none is allowed; it is allowed whenever any currency is |
| `Offers.ReconciledIdempotent` | app/src/main/java/com/example/paymoney/views/OffersView.kt:38-42 | reconciling a reconciled currency changes nothing |
| `Offers.OptionsHaveCurrencies` | app/src/main/java/com/example/paymoney/views/OffersView.kt:24-30 | every chain the dropdown offers allows at least one currency |
| `Offers.CreateOfferEnabled` | app/src/main/java/com/example/paymoney/views/OffersView.kt:102 | Create Offer is enabled as Sign Message is: exactly when connected, which in a consistent state is exactly when an address is known |
| `Offers.OffersState.constructor` | app/src/main/java/com/example/paymoney/views/OffersView.kt:32-33 | the initial Ethereum/USDC selection is already consistent |
| `Offers.OffersState.ReconcileCurrency` | app/src/main/java/com/example/paymoney/views/OffersView.kt:38-42 | the effect sets the currency to `Reconciled` of the chain's list and keeps the chain |
| `Offers.OffersState.SelectBlockchain` | app/src/main/java/com/example/paymoney/views/OffersView.kt:66 | choosing a chain stores it and, only if it changed, reconciles the currency; the selection stays consistent |
| `Offers.OffersState.SelectCurrency` | app/src/main/java/com/example/paymoney/views/OffersView.kt:76 | choosing one of the offered currencies stores it and keeps the chain |

## Left out

- The MetaMask SDK (`Ethereum.connect`, `sendRequest`, `disconnect`): its transport and signing are not visible. Its answers are inputs, and the requests and calls the handlers make are returned as values.
- Coroutines and flows: `viewModelScope.launch`, `MutableStateFlow` emission and callback scheduling are not modelled. Each handler is one atomic step, and interleavings are not modelled. `Session.LateSignReplySignsDisconnected` shows the one consequence the handlers leave open.
- `System.currentTimeMillis()` becomes the `now` parameter. `Log.d`/`Log.e` and the `println` inside the event effect are left out; `MainScreen.ConsumeEvent` returns the printed text instead.
- `ViewModel.MainViewModel.OnConnectResult`: the connect callback casts every success to `Result.Success.Item` without checking (`MainViewModel.kt:79`). Any other success kind throws inside the coroutine. The model cannot represent such a reply: for this callback `Reply.Success(None)` stands only for an `Item` whose value is null, because the SDK's result kinds are not visible.
- The SDK's result items are seen only as "a string value" or "no string value". The account value is used as the address text, as `accounts.toString()` does for a string.
- `GetBalance`: the main screen's third button (`MainActivity.kt:123-129`) dispatches `EventSink.GetBalance`, which `EventSink` does not declare, and no handler fetches a balance. Neither the button nor its enabled flag is modelled.
- `AccountView.AccountLabel`: Kotlin's `length`, `take` and `takeLast` count UTF-16 code units, while the model counts Unicode scalar values. The two differ only for characters outside the Basic Multilingual Plane. Wallet addresses are ASCII.
- `TextEncoding.Utf8Encode`: Kotlin replaces unpaired surrogates with `?`. Dafny characters cannot be unpaired surrogates, so that case does not arise in the model. The login message is ASCII in any case (`Session.LoginMessageAscii`).
- `getChainId` is private and nothing in the code calls it. Its request and its callback are modelled as written (`ViewModel.MainViewModel.GetChainId`, `ViewModel.MainViewModel.OnChainIdResult`).
- The "Network" row of the account view is the constant `AccountView.NetworkLabel`.
- Compose rendering (layout, colours, fonts, spacing), the tab shell in `views/MainScreen.kt`, the dropdown widget `utils/CustomDropdown.kt` and the SDK singleton `metamask/AppModule.kt` are not part of this model. From the dropdown, only one fact is used: a callback receives only one of the options it was given (`utils/CustomDropdown.kt:63-67`). This is the precondition of `Offers.OffersState.SelectCurrency`.
