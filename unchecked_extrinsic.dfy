/**
 * The self-contained unchecked extrinsic: a wrapper around the generic
 * `sp_runtime` extrinsic whose check reconciles two authorisation schemes.
 * A call that is self-contained carries its own embedded signature (for
 * instance an Ethereum transaction) and is verified by the call itself;
 * every other call goes through the classical, account-signature check.
 * The result is a checked extrinsic whose provenance is exactly one of
 * `Signed(id, extra)`, `Unsigned` or `SelfContained(info)`.
 *
 * Type parameters follow the source: A = Address, S = Signature,
 * E = Extra (signed extensions), C = Call, Id = AccountId,
 * I = the call's `SignedInfo`.
 */
module SelfContainedExtrinsic {
  import opened Wrappers
  import opened Validity
  import Generic

  /**
   * The `SelfContainedCall` capability of a call type: whether a call value
   * is self-contained, and the outcome of its own embedded verification
   * (absent, a signer info, or a validity error).
   */
  datatype SelfContainedCall<!C, I> = SelfContainedCall(
    isSelfContained: C -> bool,
    checkSelfContained: C -> Option<Result<I, TransactionValidityError>>)

  /** `CheckedSignature`: the provenance of a checked extrinsic. */
  datatype CheckedSignature<Id, E, I> =
    | Signed(id: Id, extra: E)
    | Unsigned
    | SelfContained(info: I)

  /** `CheckedExtrinsic`: the provenance and the call to dispatch. */
  datatype CheckedExtrinsic<Id, E, C, I> = CheckedExtrinsic(signed: CheckedSignature<Id, E, I>, call: C)

  /** `UncheckedExtrinsic(pub generic::UncheckedExtrinsic)`. */
  datatype UncheckedExtrinsic<A, S, E, C> = UncheckedExtrinsic(inner: Generic.Extrinsic<A, S, E, C>)

  // ---------------------------------------------------------------------
  // Construction and accessors
  // ---------------------------------------------------------------------

  /** `ExtrinsicCall::call`: the wrapped call. */
  function Call<A, S, E, C>(xt: UncheckedExtrinsic<A, S, E, C>): C {
    xt.inner.call
  }

  /** The classical signed data the envelope carries, if any. */
  function SignedData<A, S, E, C>(xt: UncheckedExtrinsic<A, S, E, C>): Option<Generic.SignaturePayload<A, S, E>> {
    xt.inner.signature
  }

  /** `new_signed`: a transaction with classical signed data; nothing is verified. */
  function NewSigned<A, S, E, C>(call: C, signed: A, signature: S, extra: E): (xt: UncheckedExtrinsic<A, S, E, C>)
    ensures Call(xt) == call
    ensures SignedData(xt) == Some(Generic.SignaturePayload(signed, signature, extra))
  {
    UncheckedExtrinsic(Generic.Extrinsic(Some(Generic.SignaturePayload(signed, signature, extra)), call))
  }

  /** `new_unsigned`: an inherent, without classical signed data. */
  function NewUnsigned<A, S, E, C>(call: C): (xt: UncheckedExtrinsic<A, S, E, C>)
    ensures Call(xt) == call
    ensures SignedData(xt) == None
  {
    UncheckedExtrinsic(Generic.Extrinsic(None, call))
  }

  /**
   * `Extrinsic::new`: delegates to the generic constructor, which always
   * succeeds. It takes no `SelfContainedCall` capability, so it cannot and
   * does not reject a self-contained call that comes with signed data.
   */
  function New<A, S, E, C>(call: C, signedData: Option<Generic.SignaturePayload<A, S, E>>): (r: Option<UncheckedExtrinsic<A, S, E, C>>)
    ensures r.Some?
    ensures Call(r.value) == call && SignedData(r.value) == signedData
  {
    match signedData
    case Some(payload) => Some(NewSigned(call, payload.address, payload.signature, payload.extra))
    case None => Some(NewUnsigned(call))
  }

  /**
   * `Extrinsic::is_signed`: `Some(true)` for a self-contained call, whatever
   * the envelope carries; otherwise the generic answer, which reports whether
   * classical signed data is present.
   */
  function IsSigned<A, S, E, C, I>(cap: SelfContainedCall<C, I>, xt: UncheckedExtrinsic<A, S, E, C>): (r: Option<bool>)
    ensures r == Some(cap.isSelfContained(Call(xt)) || SignedData(xt).Some?)
    ensures cap.isSelfContained(Call(xt)) ==> r == Some(true)
  {
    if cap.isSelfContained(Call(xt)) then Some(true) else Generic.IsSigned(xt.inner)
  }

  /** `GetDispatchInfo::get_dispatch_info`: the wrapped call's dispatch info. */
  function DispatchInfo<A, S, E, C, D>(getDispatchInfo: C -> D, xt: UncheckedExtrinsic<A, S, E, C>): D {
    getDispatchInfo(Call(xt))
  }

  // ---------------------------------------------------------------------
  // Checking
  // ---------------------------------------------------------------------

  /** The re-tagging of the generic `signed` field: `Some((id, extra))` to `Signed`, `None` to `Unsigned`. */
  function FromGenericSigned<Id, E, I>(signed: Option<(Id, E)>): (p: CheckedSignature<Id, E, I>)
    ensures p.Signed? <==> signed.Some?
    ensures p.Signed? ==> signed.value == (p.id, p.extra)
    ensures !p.SelfContained?
  {
    match signed
    case Some((id, extra)) => Signed(id, extra)
    case None => Unsigned
  }

  /** Re-tags a generic checked extrinsic as a self-contained checked extrinsic. */
  function FromGenericChecked<Id, E, C, I>(r: Result<Generic.Checked<Id, E, C>, TransactionValidityError>): Result<CheckedExtrinsic<Id, E, C, I>, TransactionValidityError> {
    match r
    case Err(e) => Err(e)
    case Ok(checked) => Ok(CheckedExtrinsic(FromGenericSigned(checked.signed), checked.call))
  }

  /**
   * `Checkable::check`. A self-contained call must come without classical
   * signed data and is verified by the call itself; an absent answer from
   * that verification is `BadProof` and an embedded error is returned as it
   * is. Any other call is checked classically by `innerCheck` (the generic
   * check with the lookup bound in), whose answer is re-tagged.
   */
  function Check<A, S, E, C, Id, I>(
    cap: SelfContainedCall<C, I>,
    innerCheck: Generic.InnerCheck<A, S, E, C, Id>,
    xt: UncheckedExtrinsic<A, S, E, C>): (r: Result<CheckedExtrinsic<Id, E, C, I>, TransactionValidityError>)
    // Provenance is determined by the branch.
    ensures r.Ok? ==> (r.value.signed.SelfContained? <==> cap.isSelfContained(Call(xt)))
    // A self-contained success: no dual authorisation, no silent success, the call is kept.
    ensures r.Ok? && cap.isSelfContained(Call(xt)) ==>
      && SignedData(xt).None?
      && cap.checkSelfContained(Call(xt)) == Some(Ok(r.value.signed.info))
      && r.value.call == Call(xt)
    // A self-contained failure is `BadProof` or the call's own error.
    ensures r.Err? && cap.isSelfContained(Call(xt)) ==>
      r.error == BadProofError || cap.checkSelfContained(Call(xt)) == Some(Err(r.error))
    // The classical path fails exactly when the inner check fails, with its error.
    ensures !cap.isSelfContained(Call(xt)) ==>
      && (r.Ok? <==> innerCheck(xt.inner).Ok?)
      && (r.Err? ==> r.error == innerCheck(xt.inner).error)
    // A classical success keeps the inner call and the inner signer.
    ensures !cap.isSelfContained(Call(xt)) && r.Ok? ==>
      && r.value.call == innerCheck(xt.inner).value.call
      && (r.value.signed.Signed? <==> innerCheck(xt.inner).value.signed.Some?)
      && (r.value.signed.Signed? ==> innerCheck(xt.inner).value.signed.value == (r.value.signed.id, r.value.signed.extra))
  {
    if cap.isSelfContained(Call(xt)) then
      if SignedData(xt).Some? then
        Err(BadProofError)
      else
        match cap.checkSelfContained(Call(xt))
        case None => Err(BadProofError)
        case Some(Err(e)) => Err(e)
        case Some(Ok(info)) => Ok(CheckedExtrinsic(SelfContained(info), Call(xt)))
    else
      FromGenericChecked(innerCheck(xt.inner))
  }

  /**
   * `unchecked_into_checked_i_know_what_i_am_doing`, the try-runtime
   * variant. On the self-contained path it never fails: a successful
   * embedded verification gives `SelfContained(info)`, anything else
   * `Unsigned`, and classical signed data is not looked at. Any other call
   * goes to the generic try-runtime variant `innerUnchecked`.
   */
  function UncheckedIntoChecked<A, S, E, C, Id, I>(
    cap: SelfContainedCall<C, I>,
    innerUnchecked: Generic.InnerCheck<A, S, E, C, Id>,
    xt: UncheckedExtrinsic<A, S, E, C>): (r: Result<CheckedExtrinsic<Id, E, C, I>, TransactionValidityError>)
    ensures cap.isSelfContained(Call(xt)) ==>
      && r.Ok?
      && r.value.call == Call(xt)
      && (r.value.signed.SelfContained? <==> cap.checkSelfContained(Call(xt)).Some? && cap.checkSelfContained(Call(xt)).value.Ok?)
      && (r.value.signed.SelfContained? ==> cap.checkSelfContained(Call(xt)) == Some(Ok(r.value.signed.info)))
      && (!r.value.signed.SelfContained? ==> r.value.signed.Unsigned?)
    ensures !cap.isSelfContained(Call(xt)) ==>
      && (r.Ok? <==> innerUnchecked(xt.inner).Ok?)
      && (r.Err? ==> r.error == innerUnchecked(xt.inner).error)
    // A classical success keeps the inner call and re-tags the inner signer.
    ensures !cap.isSelfContained(Call(xt)) && r.Ok? ==>
      && r.value.call == innerUnchecked(xt.inner).value.call
      && !r.value.signed.SelfContained?
      && (r.value.signed.Signed? <==> innerUnchecked(xt.inner).value.signed.Some?)
      && (r.value.signed.Signed? ==> innerUnchecked(xt.inner).value.signed.value == (r.value.signed.id, r.value.signed.extra))
  {
    if cap.isSelfContained(Call(xt)) then
      match cap.checkSelfContained(Call(xt))
      case Some(signedInfo) =>
        Ok(CheckedExtrinsic(
          match signedInfo
          case Ok(info) => SelfContained(info)
          case _ => Unsigned,
          Call(xt)))
      case None => Ok(CheckedExtrinsic(Unsigned, Call(xt)))
    else
      FromGenericChecked(innerUnchecked(xt.inner))
  }
}
