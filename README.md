# Self-contained extrinsic checking, modelled in Dafny

This project models the checking engine of Frontier's self-contained
unchecked extrinsic (`primitives/self-contained/src/unchecked_extrinsic.rs`).
The extrinsic wraps Substrate's generic `UncheckedExtrinsic` and turns it
into a `CheckedExtrinsic`. The checked extrinsic's provenance
(`CheckedSignature`) is exactly one of these:

- `Signed(id, extra)`;
- `Unsigned`;
- `SelfContained(info)`.

A self-contained call is one that carries its own embedded signature, for
example an Ethereum transaction riding inside the chain's envelope.

Files:

- `wrappers.dfy` holds Rust's `Option` and `Result`.
- `validity.dfy` holds `TransactionValidityError`. `BadProof` is explicit; every other reason is an opaque code that is only propagated.
- `generic.dfy` holds the shapes of `sp_runtime::generic` that the wrapper touches: the generic unchecked extrinsic (`signature`, `function`) and the generic checked extrinsic (`signed`, `function`).
- `unchecked_extrinsic.dfy` holds the wrapper itself: constructors, `is_signed`, the `call()` and `get_dispatch_info` accessors, `check`, and the try-runtime variant `unchecked_into_checked_i_know_what_i_am_doing`.
- `check_properties.dfy` holds the lemmas that relate several inputs: which collaborators each branch consults, each outcome of the embedded verification, and the try-runtime variant against `check`.

Rust generics become Dafny type parameters: A = Address, S = Signature,
E = Extra, C = Call, Id = AccountId, I = SignedInfo. Two collaborators are
not visible, so they are passed in as function values:

- The call's `SelfContainedCall` implementation is the datatype `SelfContainedCall`. It holds `isSelfContained` and `checkSelfContained`.
- The generic classical check, `Checkable::check` on the inner extrinsic with the `Lookup` bound in, is an `InnerCheck` function. The generic try-runtime variant is another function of the same type.

The model does not re-specify either collaborator. Every contract holds for
every choice of them.

Three behaviours of the code worth noting:

- `Extrinsic::new` (lines 80-82) delegates to the generic constructor. It does not reject a self-contained call that comes with signed data. `NewAdmitsSelfContainedSigned` shows the rejection happens only in `check`.
- An embedded verification failure (`Some(Err(e))`) is returned as `Err(e)`. It is not rewritten to `BadProof`, because the second `?` of `??` at line 109 propagates `e` as it is.
- The try-runtime variant turns a failed or absent embedded verification into `Unsigned` provenance (lines 134-143). It never fails on the self-contained path.

## Model

| member | source | states |
|---|---|---|
| SelfContainedExtrinsic.NewSigned | primitives/self-contained/src/unchecked_extrinsic.rs:46-50 | always builds an envelope, with no verification; `call()` returns the given call and the signed data is exactly (address, signature, extra) |
| SelfContainedExtrinsic.NewUnsigned | primitives/self-contained/src/unchecked_extrinsic.rs:53-57 | always builds an envelope, with no verification; `call()` returns the given call and there is no signed data |
| SelfContainedExtrinsic.New | primitives/self-contained/src/unchecked_extrinsic.rs:80-82 | always returns `Some`, keeping the call and the optional signed data; takes no self-contained capability, so it performs no self-contained check |
| SelfContainedExtrinsic.IsSigned | primitives/self-contained/src/unchecked_extrinsic.rs:72-78 | `Some(true)` whenever the call is self-contained, with or without signed data; otherwise `Some` of whether classical signed data is present |
| SelfContainedExtrinsic.FromGenericSigned | primitives/self-contained/src/unchecked_extrinsic.rs:117-120 | `Signed` exactly when the generic `signed` is `Some`, with the same id and extra; never `SelfContained` |
| SelfContainedExtrinsic.Check | primitives/self-contained/src/unchecked_extrinsic.rs:99-124 | on success, provenance is `SelfContained` iff the call is self-contained; a self-contained success had no signed data, its embedded verification returned `Some(Ok(info))` with this very info, and the call is kept; a self-contained failure is `BadProof` or the embedded error; the classical path fails iff the inner check fails, with its error, and on success keeps the inner call and the inner signer |
| SelfContainedExtrinsic.UncheckedIntoChecked | primitives/self-contained/src/unchecked_extrinsic.rs:126-156 | on the self-contained path it always succeeds with the call kept, `SelfContained(info)` iff the embedded verification returned `Some(Ok(info))` and `Unsigned` otherwise; on the classical path it fails iff the generic variant fails, with its error, and on success keeps the inner call and re-tags `Some((id, extra))` as `Signed(id, extra)` and `None` as `Unsigned` |
| CheckProperties.DualAuthorisationRejected | primitives/self-contained/src/unchecked_extrinsic.rs:100-105 | a self-contained call with signed data gives `BadProof`, the same for any signed data, any embedded verification and any classical checker |
| CheckProperties.MissingEmbeddedVerdictRejected | primitives/self-contained/src/unchecked_extrinsic.rs:107-109 | an absent embedded verdict gives `BadProof`, never a success |
| CheckProperties.EmbeddedErrorPropagated | primitives/self-contained/src/unchecked_extrinsic.rs:107-109 | an embedded `Err(e)` gives `Err(e)`, the same error |
| CheckProperties.EmbeddedSuccessTagged | primitives/self-contained/src/unchecked_extrinsic.rs:107-113 | an embedded `Ok(info)` gives `Ok` with `SelfContained(info)` and the input call |
| CheckProperties.SelfContainedAdmissibleIffEmbeddedOk | primitives/self-contained/src/unchecked_extrinsic.rs:100-113 | some envelope carrying a self-contained call passes `check` iff the call's own verification returns `Some(Ok(_))`; every envelope that passes carries no classical signed data |
| CheckProperties.ClassicalPathRetagged | primitives/self-contained/src/unchecked_extrinsic.rs:114-123 | for a call that is not self-contained: the inner error unchanged, `Some((id, extra))` as `Signed(id, extra)`, `None` as `Unsigned`, with the inner call; the embedded verification is never consulted |
| CheckProperties.UncheckedIgnoresSignedData | primitives/self-contained/src/unchecked_extrinsic.rs:131-144 | in the try-runtime variant, a self-contained call gives the same result whatever signed data the envelope carries |
| CheckProperties.UncheckedDowngradesEmbeddedFailure | primitives/self-contained/src/unchecked_extrinsic.rs:132-143 | an absent or failed embedded verification gives `Unsigned` in the try-runtime variant, while `check` rejects the same envelope |
| CheckProperties.CheckStricterThanUnchecked | primitives/self-contained/src/unchecked_extrinsic.rs:99-156 | whenever `check` succeeds, the try-runtime variant gives the same result, provided the generic variants agree where the generic check succeeds; on the self-contained path the try-runtime variant always succeeds |
| CheckProperties.NewAdmitsSelfContainedSigned | primitives/self-contained/src/unchecked_extrinsic.rs:80-82 | `new` builds a self-contained envelope with signed data; it reports `is_signed == Some(true)`, and `check` rejects it with `BadProof` |
| CheckProperties.DispatchInfoDependsOnlyOnCall | primitives/self-contained/src/unchecked_extrinsic.rs:176-188 | `call()` and `get_dispatch_info` read only the wrapped call: two envelopes with the same call have the same dispatch info |

## Left out

- The classical check of `sp_runtime` (account lookup, signature verification over the signing payload, signed extensions, `additional_signed`) is not visible. It is an `InnerCheck` parameter with no assumed behaviour. The same holds for its try-runtime variant.
- The generic constructors and the generic `is_signed` are not visible either. They are modelled as Substrate defines them: the constructors wrap their arguments, and `is_signed` is `Some(signature.is_some())`.
- Cryptography is left out. No signature scheme is modelled; `check_self_contained` is an arbitrary function.
- The model does not assume the capability's own rule that `check_self_contained` is absent iff `is_self_contained` is false. `check` handles the absent case itself (as `BadProof`), so no such assumption is needed.
- The `ExtrinsicMetadata::VERSION` constant and the `SignedExtensions` type (lines 159-166) are left out. The constant is taken from the generic type, whose value is not visible.
- serde (de)serialisation and the `OpaqueExtrinsic` conversion (lines 191-227) are left out. They delegate to library codecs whose byte layout is not visible.
- Rust's ownership transfer (`check` consumes `self`) is not modelled. Values are immutable here, so there is nothing to alias.
