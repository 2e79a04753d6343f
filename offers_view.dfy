/**
 * `OffersView(uiState, onEvent)`: the chain and currency selection. A fixed
 * table says which currencies each chain allows; whenever the selected chain
 * changes, the selected currency is reconciled with the allowed list. The
 * two selections are mutable remembered state, modelled by a class.
 */
module Offers {
  import opened Session
  import MainScreen

  /** The options of the chain dropdown. */
  const BlockchainOptions: seq<string> := ["Ethereum", "Polygon"]

  /** `allowedCurrenciesForBlockchain`. */
  const AllowedCurrenciesForBlockchain: map<string, seq<string>> :=
    map["Polygon" := ["USDC"], "Ethereum" := ["USDC", "USDT"]]

  /** `availableCurrencies`: the chain's list, empty for a chain not in the table. */
  function AvailableCurrencies(chain: string): (currencies: seq<string>)
    ensures chain == "Polygon" ==> currencies == ["USDC"]
    ensures chain == "Ethereum" ==> currencies == ["USDC", "USDT"]
    ensures chain != "Polygon" && chain != "Ethereum" ==> currencies == []
  {
    if chain in AllowedCurrenciesForBlockchain then AllowedCurrenciesForBlockchain[chain] else []
  }

  /**
   * The `LaunchedEffect` rule: an allowed currency is kept; any other becomes
   * the first allowed one, or "USDC" when nothing is allowed.
   */
  function Reconciled(available: seq<string>, selected: string): (currency: string)
    ensures selected in available ==> currency == selected
    ensures selected !in available && available != [] ==> currency == available[0]
    ensures available == [] ==> currency == "USDC"
    ensures available != [] ==> currency in available
  {
    if selected !in available then
      (if available != [] then available[0] else "USDC")
    else selected
  }

  /** Reconciling twice changes nothing more. */
  lemma ReconciledIdempotent(available: seq<string>, selected: string)
    ensures Reconciled(available, Reconciled(available, selected)) == Reconciled(available, selected)
  {
  }

  /** Every offered chain allows at least one currency. */
  lemma OptionsHaveCurrencies(chain: string)
    requires chain in BlockchainOptions
    ensures AvailableCurrencies(chain) != []
  {
  }

  /**
   * The Create Offer button is enabled under the same condition as Sign
   * Message: only while connected, which in a state the handlers keep is
   * exactly while an address is known.
   */
  function CreateOfferEnabled(s: MainUiState): (enabled: bool)
    ensures enabled <==> s.isConnected
    ensures Consistent(s) ==> (enabled <==> s.address != "")
  {
    MainScreen.SignButtonEnabled(s)
  }

  class OffersState {
    var selectedBlockchain: string
    var selectedCurrency: string

    /** Whenever a currency is allowed for the chain, the selected one is. */
    ghost predicate Valid()
      reads this
    {
      AvailableCurrencies(selectedBlockchain) != [] ==>
        selectedCurrency in AvailableCurrencies(selectedBlockchain)
    }

    /** The remembered initial selection, Ethereum and USDC, is already consistent. */
    constructor ()
      ensures Valid()
      ensures selectedBlockchain == "Ethereum" && selectedCurrency == "USDC"
    {
      selectedBlockchain := "Ethereum";
      selectedCurrency := "USDC";
    }

    /** The body of `LaunchedEffect(selectedBlockchain)`. */
    method ReconcileCurrency()
      modifies this
      ensures Valid()
      ensures selectedBlockchain == old(selectedBlockchain)
      ensures selectedCurrency ==
                Reconciled(AvailableCurrencies(selectedBlockchain), old(selectedCurrency))
    {
      var availableCurrencies := AvailableCurrencies(selectedBlockchain);
      if selectedCurrency !in availableCurrencies {
        selectedCurrency := if availableCurrencies != [] then availableCurrencies[0] else "USDC";
      }
    }

    /**
     * The chain dropdown's callback, followed by the effect keyed on the
     * chain, which runs only when the chain actually changed.
     */
    method SelectBlockchain(chain: string)
      requires Valid()
      modifies this
      ensures Valid()
      ensures selectedBlockchain == chain
      ensures chain != old(selectedBlockchain) ==>
                selectedCurrency == Reconciled(AvailableCurrencies(chain), old(selectedCurrency))
      ensures chain == old(selectedBlockchain) ==> selectedCurrency == old(selectedCurrency)
    {
      var previous := selectedBlockchain;
      selectedBlockchain := chain;
      if chain != previous {
        ReconcileCurrency();
      }
    }

    /** The currency dropdown's callback, which offers only the available currencies. */
    method SelectCurrency(currency: string)
      requires Valid()
      requires currency in AvailableCurrencies(selectedBlockchain)
      modifies this
      ensures Valid()
      ensures selectedCurrency == currency && selectedBlockchain == old(selectedBlockchain)
    {
      selectedCurrency := currency;
    }
  }
}
