/**
 * The shapes of `sp_runtime::generic` that the self-contained extrinsic wraps:
 * the generic unchecked extrinsic (an optional classical signature payload
 * plus the call) and the generic checked extrinsic that its classical check
 * produces. The classical check itself (account lookup, signature
 * verification, signed extensions) lives in `sp_runtime` and is passed to the
 * engine as an opaque function of type `InnerCheck`.
 */
module Generic {
  import opened Wrappers
  import opened Validity

  /** The classical authorisation data `(Address, Signature, Extra)`. */
  datatype SignaturePayload<A, S, E> = SignaturePayload(address: A, signature: S, extra: E)

  /** `sp_runtime::generic::UncheckedExtrinsic`: fields `signature` and `function`. */
  datatype Extrinsic<A, S, E, C> = Extrinsic(signature: Option<SignaturePayload<A, S, E>>, call: C)

  /** `sp_runtime::generic::CheckedExtrinsic`: `signed: Option<(AccountId, Extra)>` and `function`. */
  datatype Checked<Id, E, C> = Checked(signed: Option<(Id, E)>, call: C)

  /**
   * `Checkable::check` (or its try-runtime sibling) of the generic extrinsic,
   * with the account lookup it is given already bound in.
   */
  type InnerCheck<!A, !S, !E, !C, Id> = Extrinsic<A, S, E, C> -> Result<Checked<Id, E, C>, TransactionValidityError>

  /** `Extrinsic::is_signed` of the generic extrinsic: whether classical signed data is present. */
  function IsSigned<A, S, E, C>(xt: Extrinsic<A, S, E, C>): Option<bool> {
    Some(xt.signature.Some?)
  }
}
