/** The two transaction-type classifiers of app/api/extract/route.ts: the one
    written inline in the WhatsApp pipeline and the shared
    `detectTransactionType` used by Telegram and email. Both test keyword
    patterns with the `i` flag in a fixed order and return the label of the
    first that occurs; they order the labels differently.
 */
module Classify {
  import opened Text

  /** Some keyword of `words` occurs in `s`, in any case. */
  predicate AnyCI(s: string, words: seq<string>) {
    exists k :: 0 <= k < |words| && ContainsCI(s, words[k])
  }

  /** `\bcash\b` with the `i` flag. */
  predicate CashWord(s: string) {
    exists p :: 0 <= p && p + 4 <= |s| && AtCI(s, p, "cash") && IsBoundary(s, p) && IsBoundary(s, p + 4)
  }

  const MpesaWords: seq<string> := ["m-pesa", "mpesa"]
  const WhatsAppBankWords: seq<string> := ["equity", "kcb", "co-op", "bank", "i&m"]
  const WhatsAppRemitWords: seq<string> := ["worldremit", "remitly", "wise"]
  const CashHints: seq<string> := ["hand", "given"]

  predicate IsLabel(t: string) {
    t in {"M-PESA", "Bank Transfer", "Remittance", "Cash", "Card Transaction", "Cheque", "Other"}
  }

  /** The WhatsApp classifier: M-PESA, then bank names, then remittance
      services, then cash, else "Other". */
  function WhatsAppType(s: string): (t: string)
    ensures IsLabel(t) && t != "Card Transaction" && t != "Cheque"
    ensures t == "M-PESA" <==> AnyCI(s, MpesaWords)
    ensures t == "Other" <==>
      !AnyCI(s, MpesaWords) && !AnyCI(s, WhatsAppBankWords) && !AnyCI(s, WhatsAppRemitWords)
      && !CashWord(s) && !AnyCI(s, CashHints)
  {
    if AnyCI(s, MpesaWords) then "M-PESA"
    else if AnyCI(s, WhatsAppBankWords) then "Bank Transfer"
    else if AnyCI(s, WhatsAppRemitWords) then "Remittance"
    else if CashWord(s) || AnyCI(s, CashHints) then "Cash"
    else "Other"
  }

  const BankWords: seq<string> := ["bank", "transfer", "deposit", "swift", "wire"]
  const RemitWords: seq<string> := ["worldremit", "remitly", "wise", "xoom", "money gram"]
  const CardWords: seq<string> := ["card", "credit"]

  /** `detectTransactionType`: bank words, then M-PESA, then remittance
      services, then cards, then cheques, else "Other". */
  function DetectTransactionType(s: string): (t: string)
    ensures IsLabel(t) && t != "Cash"
    ensures t == "Bank Transfer" <==> AnyCI(s, BankWords)
    ensures t == "Other" <==>
      !AnyCI(s, BankWords) && !AnyCI(s, MpesaWords) && !AnyCI(s, RemitWords)
      && !AnyCI(s, CardWords) && !ContainsCI(s, "cheque")
  {
    if AnyCI(s, BankWords) then "Bank Transfer"
    else if AnyCI(s, MpesaWords) then "M-PESA"
    else if AnyCI(s, RemitWords) then "Remittance"
    else if AnyCI(s, CardWords) then "Card Transaction"
    else if ContainsCI(s, "cheque") then "Cheque"
    else "Other"
  }

  /** The two classifiers disagree on a message that names both M-PESA and a
      bank: WhatsApp says M-PESA, the shared classifier says bank transfer. */
  lemma ClassifiersDisagree(s: string)
    requires ContainsCI(s, "mpesa") && ContainsCI(s, "bank")
    ensures WhatsAppType(s) == "M-PESA" && DetectTransactionType(s) == "Bank Transfer"
  {
    assert MpesaWords[1] == "mpesa";
    assert BankWords[0] == "bank";
  }
}
