/**
 * Properties of the self-contained checking engine that relate several
 * inputs: which collaborators a branch consults, how the engine treats
 * each outcome of a call's embedded verification, how the try-runtime
 * variant relates to the real check, and what construction and the
 * read-only accessors do not do.
 */
module CheckProperties {
  import opened Wrappers
  import opened Validity
  import Generic
  import opened SelfContainedExtrinsic

  /**
   * Dual authorisation is rejected: a self-contained call that comes with
   * classical signed data is `BadProof`, whatever that signed data is and
   * whatever the call's embedded verification or the classical checker
   * would answer (neither is consulted).
   */
  lemma DualAuthorisationRejected<A, S, E, C, Id, I>(
    cap: SelfContainedCall<C, I>, cap': SelfContainedCall<C, I>,
    innerCheck: Generic.InnerCheck<A, S, E, C, Id>, innerCheck': Generic.InnerCheck<A, S, E, C, Id>,
    xt: UncheckedExtrinsic<A, S, E, C>, xt': UncheckedExtrinsic<A, S, E, C>)
    requires Call(xt') == Call(xt)
    requires cap.isSelfContained(Call(xt)) && cap'.isSelfContained(Call(xt))
    requires SignedData(xt).Some? && SignedData(xt').Some?
    ensures Check(cap, innerCheck, xt) == Err(BadProofError)
    ensures Check(cap', innerCheck', xt') == Check(cap, innerCheck, xt)
  {
  }

  /** A self-contained call whose embedded verification gives no answer is `BadProof`, never a success. */
  lemma MissingEmbeddedVerdictRejected<A, S, E, C, Id, I>(
    cap: SelfContainedCall<C, I>, innerCheck: Generic.InnerCheck<A, S, E, C, Id>, xt: UncheckedExtrinsic<A, S, E, C>)
    requires cap.isSelfContained(Call(xt)) && SignedData(xt).None?
    requires cap.checkSelfContained(Call(xt)).None?
    ensures Check(cap, innerCheck, xt) == Err(BadProofError)
  {
  }

  /** An embedded verification error is returned as it is, not remapped. */
  lemma EmbeddedErrorPropagated<A, S, E, C, Id, I>(
    cap: SelfContainedCall<C, I>, innerCheck: Generic.InnerCheck<A, S, E, C, Id>, xt: UncheckedExtrinsic<A, S, E, C>,
    e: TransactionValidityError)
    requires cap.isSelfContained(Call(xt)) && SignedData(xt).None?
    requires cap.checkSelfContained(Call(xt)) == Some(Err(e))
    ensures Check(cap, innerCheck, xt) == Err(e)
  {
  }

  /** A successful embedded verification gives `SelfContained` with exactly its info, and the call unchanged. */
  lemma EmbeddedSuccessTagged<A, S, E, C, Id, I>(
    cap: SelfContainedCall<C, I>, innerCheck: Generic.InnerCheck<A, S, E, C, Id>, xt: UncheckedExtrinsic<A, S, E, C>,
    info: I)
    requires cap.isSelfContained(Call(xt)) && SignedData(xt).None?
    requires cap.checkSelfContained(Call(xt)) == Some(Ok(info))
    ensures Check(cap, innerCheck, xt) == Ok(CheckedExtrinsic(SelfContained(info), Call(xt)))
  {
  }

  /**
   * Admission of a self-contained call depends on nothing but the call's own
   * verification: some envelope carrying the call passes `check` exactly when
   * that verification succeeds, and an envelope that passes carries no
   * classical signed data. The envelope `new_unsigned(call)` is the witness.
   */
  lemma SelfContainedAdmissibleIffEmbeddedOk<A, S, E, C, Id, I>(
    cap: SelfContainedCall<C, I>, innerCheck: Generic.InnerCheck<A, S, E, C, Id>, call: C)
    requires cap.isSelfContained(call)
    ensures (exists xt: UncheckedExtrinsic<A, S, E, C> :: Call(xt) == call && Check(cap, innerCheck, xt).Ok?)
      <==> cap.checkSelfContained(call).Some? && cap.checkSelfContained(call).value.Ok?
    ensures forall xt: UncheckedExtrinsic<A, S, E, C> :: Call(xt) == call && Check(cap, innerCheck, xt).Ok? ==>
      SignedData(xt).None?
  {
    if cap.checkSelfContained(call).Some? && cap.checkSelfContained(call).value.Ok? {
      var xt: UncheckedExtrinsic<A, S, E, C> := NewUnsigned(call);
      assert Check(cap, innerCheck, xt).Ok?;
    }
  }

  /**
   * The classical path re-tags the inner check's answer: its error unchanged,
   * `Some((id, extra))` as `Signed(id, extra)`, `None` as `Unsigned`, with the
   * inner call. The call's embedded verification is never consulted.
   */
  lemma ClassicalPathRetagged<A, S, E, C, Id, I>(
    cap: SelfContainedCall<C, I>, cap': SelfContainedCall<C, I>,
    innerCheck: Generic.InnerCheck<A, S, E, C, Id>, xt: UncheckedExtrinsic<A, S, E, C>)
    requires !cap.isSelfContained(Call(xt)) && !cap'.isSelfContained(Call(xt))
    ensures Check(cap', innerCheck, xt) == Check(cap, innerCheck, xt)
    ensures innerCheck(xt.inner).Err? ==> Check(cap, innerCheck, xt) == Err(innerCheck(xt.inner).error)
    ensures innerCheck(xt.inner).Ok? && innerCheck(xt.inner).value.signed.Some? ==>
      var (id, extra) := innerCheck(xt.inner).value.signed.value;
      Check(cap, innerCheck, xt) == Ok(CheckedExtrinsic(Signed(id, extra), innerCheck(xt.inner).value.call))
    ensures innerCheck(xt.inner).Ok? && innerCheck(xt.inner).value.signed.None? ==>
      Check(cap, innerCheck, xt) == Ok(CheckedExtrinsic(Unsigned, innerCheck(xt.inner).value.call))
  {
  }

  /**
   * The try-runtime variant does not look at classical signed data on the
   * self-contained path, nor at the generic checker: two envelopes with the
   * same self-contained call give the same result.
   */
  lemma UncheckedIgnoresSignedData<A, S, E, C, Id, I>(
    cap: SelfContainedCall<C, I>,
    innerUnchecked: Generic.InnerCheck<A, S, E, C, Id>, innerUnchecked': Generic.InnerCheck<A, S, E, C, Id>,
    xt: UncheckedExtrinsic<A, S, E, C>, xt': UncheckedExtrinsic<A, S, E, C>)
    requires Call(xt') == Call(xt) && cap.isSelfContained(Call(xt))
    ensures UncheckedIntoChecked(cap, innerUnchecked', xt') == UncheckedIntoChecked(cap, innerUnchecked, xt)
  {
  }

  /**
   * The try-runtime variant downgrades a failed or absent embedded
   * verification to `Unsigned` instead of failing; the real check rejects
   * the same envelope.
   */
  lemma UncheckedDowngradesEmbeddedFailure<A, S, E, C, Id, I>(
    cap: SelfContainedCall<C, I>,
    innerCheck: Generic.InnerCheck<A, S, E, C, Id>, innerUnchecked: Generic.InnerCheck<A, S, E, C, Id>,
    xt: UncheckedExtrinsic<A, S, E, C>)
    requires cap.isSelfContained(Call(xt))
    requires cap.checkSelfContained(Call(xt)).None? || cap.checkSelfContained(Call(xt)).value.Err?
    ensures UncheckedIntoChecked(cap, innerUnchecked, xt) == Ok(CheckedExtrinsic(Unsigned, Call(xt)))
    ensures Check(cap, innerCheck, xt).Err?
  {
  }

  /**
   * The try-runtime variant accepts everything the real check accepts, with
   * the same result, as long as the generic try-runtime variant agrees with
   * the generic check where that check succeeds.
   */
  lemma CheckStricterThanUnchecked<A, S, E, C, Id, I>(
    cap: SelfContainedCall<C, I>,
    innerCheck: Generic.InnerCheck<A, S, E, C, Id>, innerUnchecked: Generic.InnerCheck<A, S, E, C, Id>,
    xt: UncheckedExtrinsic<A, S, E, C>)
    requires innerCheck(xt.inner).Ok? ==> innerUnchecked(xt.inner) == innerCheck(xt.inner)
    ensures Check(cap, innerCheck, xt).Ok? ==> UncheckedIntoChecked(cap, innerUnchecked, xt) == Check(cap, innerCheck, xt)
    ensures cap.isSelfContained(Call(xt)) ==> UncheckedIntoChecked(cap, innerUnchecked, xt).Ok?
  {
  }

  /**
   * `Extrinsic::new` does not reject a self-contained call with signed data:
   * it builds the envelope, which reports itself signed, and the rejection
   * happens only when the envelope is checked.
   */
  lemma NewAdmitsSelfContainedSigned<A, S, E, C, Id, I>(
    cap: SelfContainedCall<C, I>, innerCheck: Generic.InnerCheck<A, S, E, C, Id>,
    call: C, payload: Generic.SignaturePayload<A, S, E>)
    requires cap.isSelfContained(call)
    ensures New(call, Some(payload)).Some?
    ensures IsSigned(cap, New(call, Some(payload)).value) == Some(true)
    ensures Check(cap, innerCheck, New(call, Some(payload)).value) == Err(BadProofError)
  {
  }

  /** `get_dispatch_info` depends only on the wrapped call, not on signed data. */
  lemma DispatchInfoDependsOnlyOnCall<A, S, E, C, D>(
    getDispatchInfo: C -> D, xt: UncheckedExtrinsic<A, S, E, C>, xt': UncheckedExtrinsic<A, S, E, C>)
    requires Call(xt') == Call(xt)
    ensures DispatchInfo(getDispatchInfo, xt') == DispatchInfo(getDispatchInfo, xt) == getDispatchInfo(Call(xt))
  {
  }
}
