/**
 * The figures and guards of the dashboard page: the free-tier allowance,
 * overage and account type shown on the billing tab, the progress bar, the
 * masking of key prefixes, and the check on a new key's name.
 */
module Dashboard {
  import opened Wrappers
  import opened JsStrings
  import opened ApiKeys
  import opened Toasts

  /** Tokens a month free of charge. */
  const FreeTierTokens: nat := 1000000

  /** "Free tier remaining": `Math.max(0, 1000000 - tokensThisMonth)`. */
  function FreeTierRemaining(tokens: nat): (r: nat)
    ensures r <= FreeTierTokens
    ensures r == 0 <==> tokens >= FreeTierTokens
    ensures tokens < FreeTierTokens ==> tokens + r == FreeTierTokens
  {
    if tokens >= FreeTierTokens then 0 else FreeTierTokens - tokens
  }

  /** Using more never leaves more of the allowance. */
  lemma RemainingShrinks(a: nat, b: nat)
    requires a <= b
    ensures FreeTierRemaining(b) <= FreeTierRemaining(a)
    ensures a < FreeTierTokens ==> FreeTierRemaining(a) - FreeTierRemaining(b) == (if b < FreeTierTokens then b else FreeTierTokens) - a
  {
  }

  datatype AccountType = FreeTier | PayAsYouGo

  /** "Account type": pay-as-you-go once the month's tokens pass the allowance. */
  function AccountTypeOf(tokens: nat): (r: AccountType)
    ensures r == PayAsYouGo <==> tokens > FreeTierTokens
  {
    if tokens > FreeTierTokens then PayAsYouGo else FreeTier
  }

  /** The label shown for the account type. */
  function AccountTypeLabel(a: AccountType): (r: string)
    ensures r == "Pay-as-you-go" <==> a == PayAsYouGo
    ensures r == "Free Tier" <==> a == FreeTier
  {
    match a
    case FreeTier => "Free Tier"
    case PayAsYouGo => "Pay-as-you-go"
  }

  /** The "Overage tokens" row: shown only past the allowance, with the excess. */
  function OverageTokens(tokens: nat): (r: Option<nat>)
    ensures r.Some? <==> tokens > FreeTierTokens
    ensures r.Some? ==> r.value > 0 && r.value + FreeTierTokens == tokens
  {
    if tokens > FreeTierTokens then Some(tokens - FreeTierTokens) else None
  }

  /** `(tokensThisMonth / 1000000) * 100`. */
  function UsedPercent(tokens: nat): (r: real)
    ensures r >= 0.0
    ensures r <= 100.0 <==> tokens <= FreeTierTokens
    ensures r * (FreeTierTokens as real) == (tokens as real) * 100.0
  {
    (tokens as real / FreeTierTokens as real) * 100.0
  }

  /** The progress bar's width: `Math.min(UsedPercent, 100)`. */
  function ProgressWidth(tokens: nat): (r: real)
    ensures 0.0 <= r <= 100.0
    ensures tokens >= FreeTierTokens ==> r == 100.0
    ensures tokens <= FreeTierTokens ==> r == UsedPercent(tokens)
  {
    var p := UsedPercent(tokens);
    if p < 100.0 then p else 100.0
  }

  /** The bar never shrinks as usage grows. */
  lemma ProgressGrows(a: nat, b: nat)
    requires a <= b
    ensures ProgressWidth(a) <= ProgressWidth(b)
  {
    if b < FreeTierTokens {
      assert UsedPercent(a) * (FreeTierTokens as real) <= UsedPercent(b) * (FreeTierTokens as real);
    }
  }

  /** The "Free Tier" panel: the share used (only once something was used), the bar, what is left. */
  datatype FreeTierPanel = FreeTierPanel(usedPercent: Option<real>, progress: real, remaining: nat)

  function FreeTierPanelFor(tokens: nat): (r: Option<FreeTierPanel>)
    ensures r.Some? <==> tokens <= FreeTierTokens
    ensures r.Some? ==> (r.value.usedPercent.Some? <==> tokens > 0)
    ensures r.Some? ==> r.value.progress <= 100.0 && r.value.remaining + tokens == FreeTierTokens
    ensures r.Some? ==> r.value.progress == ProgressWidth(tokens) == UsedPercent(tokens)
    ensures r.Some? && tokens > 0 ==> r.value.usedPercent == Some(UsedPercent(tokens))
  {
    if tokens <= FreeTierTokens then
      Some(FreeTierPanel(
        if tokens > 0 then Some(UsedPercent(tokens)) else None,
        ProgressWidth(tokens),
        FreeTierRemaining(tokens)))
    else
      None
  }

  /**
   * Whatever the month's tokens, the billing tab shows exactly one of the
   * overage row and the free-tier panel, and the account type names which.
   */
  lemma OverageOrFreeTier(tokens: nat)
    ensures OverageTokens(tokens).Some? != FreeTierPanelFor(tokens).Some?
    ensures AccountTypeOf(tokens) == PayAsYouGo <==> OverageTokens(tokens).Some?
    ensures AccountTypeOf(tokens) == FreeTier <==> FreeTierPanelFor(tokens).Some?
  {
  }

  const MaskChar: char := '\U{2022}'

  /** What the key list shows for a key: its prefix, or 32 bullets while keys are hidden. */
  function MaskedKey(key: ApiKey, show: bool): (r: string)
    ensures show ==> r == key.keyPrefix
    ensures !show ==> |r| == 32 && forall i :: 0 <= i < 32 ==> r[i] == MaskChar
  {
    if show then key.keyPrefix else Repeat(MaskChar, 32)
  }

  /** While hidden, no two keys can be told apart on screen. */
  lemma HiddenKeysLookAlike(a: ApiKey, b: ApiKey)
    ensures MaskedKey(a, false) == MaskedKey(b, false)
  {
  }

  const BlankNameToast := ToastRequest("Error", Some("Please enter a name for your API key"), Some(Destructive))
  const KeyCreatedToast := ToastRequest("Success", Some("API key created successfully"), Some(Default))

  /** After the form is submitted: the key table, the toast raised if any, and the name field. */
  datatype CreateKeyOutcome = CreateKeyOutcome(table: seq<ApiKey>, toast: Option<ToastRequest>, newKeyName: string)

  /**
   * `handleCreateApiKey`: a name that is blank once trimmed raises the error
   * toast and creates nothing; otherwise the trimmed name is passed to
   * `createApiKey`, and on success the form is cleared and a success toast
   * raised. The generated prefix, hash, id and time are parameters.
   */
  function HandleCreateApiKey(table: seq<ApiKey>, user: Option<string>, newKeyName: string,
                              keyPrefix: string, keyHash: string, id: string, now: int): (r: CreateKeyOutcome)
    ensures Trim(newKeyName) == [] ==> r == CreateKeyOutcome(table, Some(BlankNameToast), newKeyName)
    ensures Trim(newKeyName) != [] && user.None? ==> r == CreateKeyOutcome(table, None, newKeyName)
    ensures Trim(newKeyName) != [] && user.Some? ==>
      && |r.table| == |table| + 1 && r.table[..|table|] == table
      && r.table[|table|].name == Trim(newKeyName) && r.table[|table|].userId == user.value
      && r.toast == Some(KeyCreatedToast) && r.newKeyName == []
  {
    var name := Trim(newKeyName);
    if name == [] then
      CreateKeyOutcome(table, Some(BlankNameToast), newKeyName)
    else
      match CreateApiKey(table, user, name, keyPrefix, keyHash, id, now)
      case None => CreateKeyOutcome(table, None, newKeyName)
      case Some(created) => CreateKeyOutcome(created.0, Some(KeyCreatedToast), [])
  }

  /** The error toast is raised exactly for names made only of whitespace, and then nothing is created. */
  lemma BlankNameRejected(table: seq<ApiKey>, user: Option<string>, newKeyName: string,
                          keyPrefix: string, keyHash: string, id: string, now: int)
    ensures var r := HandleCreateApiKey(table, user, newKeyName, keyPrefix, keyHash, id, now);
      r.toast == Some(BlankNameToast) <==> forall i :: 0 <= i < |newKeyName| ==> IsWhitespace(newKeyName[i])
    ensures var r := HandleCreateApiKey(table, user, newKeyName, keyPrefix, keyHash, id, now);
      r.toast == Some(BlankNameToast) ==> r.table == table
  {
    TrimEmpty(newKeyName);
  }

  /** A key created through the form appears in its owner's listing under the trimmed name. */
  lemma CreatedThroughFormListed(table: seq<ApiKey>, user: string, newKeyName: string,
                                 keyPrefix: string, keyHash: string, id: string, now: int)
    requires Trim(newKeyName) != []
    ensures var r := HandleCreateApiKey(table, Some(user), newKeyName, keyPrefix, keyHash, id, now);
      exists k :: k in ListKeys(r.table, user) && k.name == Trim(newKeyName)
  {
    var r := HandleCreateApiKey(table, Some(user), newKeyName, keyPrefix, keyHash, id, now);
    CreatedKeyListed(table, user, Trim(newKeyName), keyPrefix, keyHash, id, now);
    var k := CreateApiKey(table, Some(user), Trim(newKeyName), keyPrefix, keyHash, id, now).value.1;
    assert k in ListKeys(r.table, user) && k.name == Trim(newKeyName);
  }
}
