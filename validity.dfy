/**
 * The transaction validity errors of `sp_runtime::transaction_validity`.
 * Only `BadProof` is produced by the self-contained checking engine; every
 * other reason is produced by collaborators (the classical checker, a call's
 * own embedded verification) and is only ever propagated, so it is kept
 * opaque here.
 */
module Validity {

  /** `InvalidTransaction`: the transaction can never become valid. */
  datatype InvalidTransaction =
    | BadProof
    | OtherInvalid(code: nat)

  /** `TransactionValidityError`: invalid for good, or validity unknown for now. */
  datatype TransactionValidityError =
    | Invalid(reason: InvalidTransaction)
    | Unknown(code: nat)

  /** `TransactionValidityError::Invalid(InvalidTransaction::BadProof)`. */
  const BadProofError: TransactionValidityError := Invalid(BadProof)
}
