/** Values shared by every layer of the channel: machine integers, keys, addresses,
    conditions, operations and the error codes of the contracts. */
module Types {

  newtype byte = x: int | 0 <= x < 256

  const I128_MAX: int := 0x7FFF_FFFF_FFFF_FFFF_FFFF_FFFF_FFFF_FFFF
  const I128_MIN: int := -I128_MAX - 1

  type I128 = x: int | I128_MIN <= x <= I128_MAX
  type U32 = x: int | 0 <= x < 0x1_0000_0000

  /** Account and contract addresses in their 56-character form: 'G...' or 'C...' (SEP-23). */
  type StrKey = s: seq<byte> | |s| == 56 && (s[0] == 71 || s[0] == 67) witness seq(56, _ => 71)
  type Bytes65 = s: seq<byte> | |s| == 65 witness seq(65, _ => 4)

  datatype Address = Address(strkey: StrKey)
  datatype Utxo = Utxo(bytes: Bytes65)
  datatype Digest = Digest(bytes: seq<byte>)

  datatype Condition =
    | Create(utxo: Utxo, amount: I128)
    | ExtDeposit(addr: Address, amount: I128)
    | ExtWithdraw(addr: Address, amount: I128)
    | ExtIntegration(adapter: Address, utxos: seq<Utxo>, amount: I128)

  datatype SpendEntry = SpendEntry(utxo: Utxo, conditions: seq<Condition>)
  datatype Output = Output(utxo: Utxo, amount: I128)
  datatype External = External(addr: Address, amount: I128, conditions: seq<Condition>)

  datatype Operation = Operation(
    spend: seq<SpendEntry>,
    create: seq<Output>,
    deposit: seq<External>,
    withdraw: seq<External>)

  /** The contracts' error codes, then the failures that carry no code of their own. */
  datatype Error =
    | BadArg | MissingSignature | InvalidSignatureFormat | NoConditions | UnexpectedContext
    | SignatureExpired | ProviderThresholdNotMet | ProviderAlreadyRegistered | ProviderNotRegistered
    | UtxoAlreadyExists | UtxoDoesNotExist | UtxoAlreadySpent | UnbalancedBundle
    | InvalidCreateAmount | RepeatedCreateUtxo | RepeatedSpendUtxo
    | RepeatedAccountForDeposit | RepeatedAccountForWithdraw | ConflictingConditionsForAccount
    | AmountOverflow | BundleHasConflictingConditions | AmountUnderflow | UnauthorizedOperation
    | InvalidExternalAmount | ReentrantCall
    | Trap            // arithmetic overflow or a failed signature check: the host aborts the call
    | AuthRejected    // the host finds no valid authorization for a required address
    | AssetReverted   // the asset contract fails
    | NegativeAmount | InsufficientBalance | InsufficientAllowance | BadExpiration

  datatype Result<+T> = Ok(value: T) | Err(error: Error) {
    predicate IsFailure() { Err? }

    function PropagateFailure<U>(): Result<U>
      requires Err?
    {
      Err(error)
    }

    function Extract(): T
      requires Ok?
    {
      value
    }
  }

  datatype Unit = Unit
}
