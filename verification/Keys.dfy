/** Ledger keys before and after classification. */
module Keys {
  import opened Seqs

  /** The parts of a parsed `xdr.LedgerKey` that classification looks at. */
  datatype LedgerEntry =
    | ContractData(contract: Option<string>, isInstance: bool)
    | ContractCode(hash: string)
    | LiquidityPool
    | ClaimableBalance
    | Ttl
    | Unrecognised

  /** A ledger key: its base64 encoding, which identifies it, and its parsed form. */
  datatype LedgerKey = LedgerKey(encoding: string, entry: LedgerEntry)

  datatype KeyType =
    ContractInstanceKey | ContractDataKey | ContractCodeKey |
    LiquidityPoolKey | ClaimableBalanceKey | TtlEntryKey | UnknownKey

  datatype ArchivedKey = ArchivedKey(
    key: LedgerKey,
    keyBase64: string,
    keyType: KeyType,
    contractId: Option<string>,
    restorePriority: int)
}
