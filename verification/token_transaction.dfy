/** A token transfer event as the history API reports it (KNTokenTransaction):
    the record built from a JSON dictionary with defaults, identity by id, and
    the token a transfer mentions (`getToken`).

    `parseInt` is Swift's `Int(String)` and `isAddress` is `Address(string:)`;
    the timestamp and its floating-point date are not modelled. */
module TokenTransaction {
  import opened Common

  /** A JSON value, as far as the record cares: a string or anything else. */
  datatype JsonValue = JString(s: string) | JNumber(n: int) | JOther

  type JsonDictionary = map<string, JsonValue>

  /** The stored record. Every field but `blockNumber` is kept as text. */
  datatype TokenTransaction = TokenTransaction(
    id: string,
    blockNumber: int,
    nonce: string,
    blockHash: string,
    from: string,
    contractAddress: string,
    to: string,
    value: string,
    tokenName: string,
    tokenSymbol: string,
    tokenDecimal: string,
    transactionIndex: string,
    gas: string,
    gasPrice: string,
    gasUsed: string,
    cumulativeGasUsed: string,
    input: string,
    confirmations: string)

  /** `dictionary[key] as? String ?? ""`: the value when it is a string, else empty. */
  function StringField(d: JsonDictionary, key: string): (s: string)
    ensures key in d && d[key].JString? ==> s == d[key].s
    ensures !(key in d && d[key].JString?) ==> s == []
  {
    if key in d && d[key].JString? then d[key].s else ""
  }

  /** init(dictionary:), without the date. */
  function FromDictionary(d: JsonDictionary, parseInt: string -> Option<int>): (t: TokenTransaction)
    ensures t.id == StringField(d, "hash")
    ensures t.blockNumber == parseInt(StringField(d, "blockNumber")).GetOr(0)
    ensures t.nonce == StringField(d, "nonce") && t.blockHash == StringField(d, "blockHash")
    ensures t.from == StringField(d, "from") && t.to == StringField(d, "to")
    ensures t.contractAddress == StringField(d, "contractAddress") && t.value == StringField(d, "value")
    ensures t.tokenName == StringField(d, "tokenName") && t.tokenSymbol == StringField(d, "tokenSymbol")
    ensures t.tokenDecimal == StringField(d, "tokenDecimal")
    ensures t.transactionIndex == StringField(d, "transactionIndex") && t.gas == StringField(d, "gas")
    ensures t.gasPrice == StringField(d, "gasPrice") && t.gasUsed == StringField(d, "gasUsed")
    ensures t.cumulativeGasUsed == StringField(d, "cumulativeGasUsed")
    ensures t.input == StringField(d, "input") && t.confirmations == StringField(d, "confirmations")
  {
    TokenTransaction(
      StringField(d, "hash"),
      parseInt(StringField(d, "blockNumber")).GetOr(0),
      StringField(d, "nonce"),
      StringField(d, "blockHash"),
      StringField(d, "from"),
      StringField(d, "contractAddress"),
      StringField(d, "to"),
      StringField(d, "value"),
      StringField(d, "tokenName"),
      StringField(d, "tokenSymbol"),
      StringField(d, "tokenDecimal"),
      StringField(d, "transactionIndex"),
      StringField(d, "gas"),
      StringField(d, "gasPrice"),
      StringField(d, "gasUsed"),
      StringField(d, "cumulativeGasUsed"),
      StringField(d, "input"),
      StringField(d, "confirmations"))
  }

  /** A block number sent as a JSON number rather than a string is read as
      block 0, since `Int("")` does not parse. */
  lemma NumericBlockNumberReadsAsZero(d: JsonDictionary, parseInt: string -> Option<int>, n: int)
    requires "blockNumber" in d && d["blockNumber"] == JNumber(n)
    requires parseInt([]).None?
    ensures FromDictionary(d, parseInt).blockNumber == 0
  {
  }

  /** isEqual(_:): `other` is `None` when the object is not a token transaction. */
  function IsEqual(t: TokenTransaction, other: Option<TokenTransaction>): (eq: bool)
    ensures eq <==> other.Some? && other.value.id == t.id
  {
    match other
    case None => false
    case Some(o) => o.id == t.id
  }

  /** Identity by id is an equivalence on token transactions. */
  lemma IsEqualIsEquivalence(a: TokenTransaction, b: TokenTransaction, c: TokenTransaction)
    ensures IsEqual(a, Some(a))
    ensures IsEqual(a, Some(b)) ==> IsEqual(b, Some(a))
    ensures IsEqual(a, Some(b)) && IsEqual(b, Some(c)) ==> IsEqual(a, Some(c))
  {
  }

  /** Two dictionaries with the same hash give equal records, whatever else
      they hold; in particular all dictionaries without a string hash share the
      primary key "". */
  lemma SameHashSameRecord(d1: JsonDictionary, d2: JsonDictionary, parseInt: string -> Option<int>)
    requires StringField(d1, "hash") == StringField(d2, "hash")
    ensures IsEqual(FromDictionary(d1, parseInt), Some(FromDictionary(d2, parseInt)))
  {
  }

  lemma MissingHashesCollide(d1: JsonDictionary, d2: JsonDictionary, parseInt: string -> Option<int>)
    requires "hash" !in d1 && "hash" !in d2
    ensures FromDictionary(d1, parseInt).id == [] && IsEqual(FromDictionary(d1, parseInt), Some(FromDictionary(d2, parseInt)))
  {
  }

  /** The TokenObject `getToken` builds. */
  datatype TokenObject = TokenObject(
    contract: string, name: string, symbol: string, decimals: int, value: string, isCustom: bool, isDisabled: bool)

  /** getToken: nothing when the contract address is not an address;
      otherwise the token it names, with 18 decimals when the decimals do not
      parse, a zero value and neither custom nor disabled. */
  function GetToken(t: TokenTransaction, isAddress: string -> bool, parseInt: string -> Option<int>): (r: Option<TokenObject>)
    ensures r.None? <==> !isAddress(t.contractAddress)
    ensures r.Some? ==>
              && r.value.contract == t.contractAddress && r.value.name == t.tokenName && r.value.symbol == t.tokenSymbol
              && r.value.decimals == parseInt(t.tokenDecimal).GetOr(18)
              && r.value.value == "0" && !r.value.isCustom && !r.value.isDisabled
  {
    if !isAddress(t.contractAddress) then None
    else Some(TokenObject(t.contractAddress, t.tokenName, t.tokenSymbol, parseInt(t.tokenDecimal).GetOr(18), "0", false, false))
  }

  /** The token of a record built from a dictionary is the dictionary's
      contract, name and symbol; a dictionary without token decimals gives an
      18-decimal token. */
  lemma TokenOfDictionary(d: JsonDictionary, isAddress: string -> bool, parseInt: string -> Option<int>)
    requires isAddress(StringField(d, "contractAddress"))
    requires parseInt([]).None?
    ensures var tok := GetToken(FromDictionary(d, parseInt), isAddress, parseInt);
            && tok.Some?
            && tok.value.contract == StringField(d, "contractAddress")
            && tok.value.name == StringField(d, "tokenName")
            && tok.value.symbol == StringField(d, "tokenSymbol")
            && ("tokenDecimal" !in d ==> tok.value.decimals == 18)
  {
  }
}
