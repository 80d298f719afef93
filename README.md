# ShadowLend, modelled in Dafny

ShadowLend is a lending protocol on Solana whose balances are stored encrypted.
A user opens a position against a single pool and deposits SOL as collateral.
They borrow against it, repay, withdraw, and finally close the position.
Anyone holding a proof that a position is unhealthy can liquidate it.
The position account never stores amounts in the clear. It stores two 32-byte
ciphertexts, one for the collateral and one for the debt. The browser client
writes them: it encrypts with a key derived from the wallet, and the program
only checks a placeholder "Inco" proof that is bound to those ciphertexts.

The project models both halves:

- **The program** (`programs/shadow-lend/src/lib.rs`):
  - `ledger.dfy`: a `Ledger` class whose methods are the eight instruction
    handlers over one pool, one owner's position and the lamport balances of the
    vault, the owner and a liquidator.
  - `accounts.dfy`: the Anchor byte layouts of `Pool` and `Position`.
  - `proof_verifier.dfy`: the proof binding and the three proof verifiers.
- **The client** (`app/src`):
  - `encryption.dfy`: the XOR-mask encryption, the placeholder proofs and the
    health factor of `lib/encryption.ts`.
  - `use_pool.dfy`, `use_position.dfy`: the account decoders and fetch logic of
    `hooks/usePool.ts` and `hooks/usePosition.ts`.
  - `use_program.dfy`: the second pair of decoders and `decryptPosition` in
    `hooks/useProgram.ts`.
  - `use_lending.dfy`: the instruction-data builders and the transaction status
    machine of `hooks/useLending.ts`.
  - `lending_form.dfy`, `health_indicator.dfy`: the decisions of `LendingForm.tsx`
    and `HealthIndicator.tsx`.
  - `constants.dfy`: `truncateAddress`.
- **Shared helpers**:
  - `bytes.dfy`: little-endian codecs, XOR, buffer writes.
  - `wrappers.dfy`: `Option` and `Result`.
- **End to end** (`scenarios.dfy`): client-built instructions go through the
  program's instruction dispatch and the handlers. The result is decoded back
  the way the client decodes it. The program dispatches on Anchor's selectors,
  and three of the client's selectors are not those (see "## Findings"), so
  the scenarios send the client's data with the corrected selector in front
  (`UseLending.Reselect`).

Hash functions (SHA-512 for the mask, SHA-256 for the proof binding) are
parameters. They are typed functions whose output has the right length, and no
property of the model depends on what they compute. The clock, the rent minimum
and the random nonce are parameters too.

Integers are exact:

- `u8`/`u16`/`u64`/`i64` are subset types.
- `checked_add(..).unwrap()` is an `ArithmeticOverflow` error.
- `saturating_sub` is `SaturatingSub`; the client's clamp is the same function
  (`UseLending.ClampedSubIsSaturatingSub`).
- `setBigUint64` reduces modulo 2^64.
- `writeBigUInt64LE` is an `AmountOutOfRange` error outside `[0, 2^64)`.

Where the program's own comments and its code disagree, the model follows the
code:

- `close_position` checks only that the debt ciphertext is zero bytes. The
  collateral ciphertext is not checked, and the client does not check the
  balances before it submits (`UseLending.BareData`). `Scenarios.DepositThenClose`
  shows the collateral left in the vault.
- The comment on `verify_inco_borrow_proof` says it validates that
  "collateral * LTV >= debt + amount" (programs/shadow-lend/src/lib.rs:689),
  and the handlers' comments promise the same for withdraw and liquidate.
  The proofs are placeholders: they are checked for their binding to the
  stored ciphertexts, the amount and an optional hash, not for solvency.

Two client modules also disagree with each other:

- The health factor is a percentage in `computeHealthFactor` but is divided
  by 100 in `decryptPosition` (`UseProgram.Ratio`). The model keeps both.

## Model

| member | source | states |
|---|---|---|
| Bytes.FromLEToLE | app/src/hooks/usePool.ts:41-50 | reading back a little-endian encoding of a value below 256^n gives the value |
| Bytes.ToLEFromLE | app/src/hooks/usePool.ts:41-50 | encoding the value read from n bytes gives those bytes back |
| Bytes.SignedRoundTrip | app/src/hooks/usePosition.ts:44 | the two's-complement reading of an `i64` encoding is the original value |
| Bytes.XorBytesInvolutive | app/src/lib/encryption.ts:119-122 | XOR with the same mask twice is the identity, byte for byte |
| Bytes.Write | app/src/lib/encryption.ts:84-86 | `Uint8Array.set` overwrites exactly the target range and leaves the rest |
| Encryption.BuildMask | app/src/lib/encryption.ts:72-75 | the mask is the first 8 bytes of the hash of nonce + first 32 key bytes |
| Encryption.XorLoop | app/src/lib/encryption.ts:78-81 | the loop computes the bytewise XOR of plaintext and mask |
| Encryption.EncryptAmount | app/src/lib/encryption.ts:58-88 | the 32-byte ciphertext is the masked amount (mod 2^64) followed by the nonce |
| Encryption.DecryptAmount | app/src/lib/encryption.ts:94-130 | null for a length other than 32, 0 for all zeros, otherwise the unmasked little-endian value |
| Encryption.CiphertextLayout | app/src/lib/encryption.ts:84-86 | a ciphertext is 32 bytes, its bytes 8..32 are the nonce and its first 8 are the masked amount |
| Encryption.CiphertextAllZeroIff | app/src/lib/encryption.ts:102-105 | a ciphertext is all zeros exactly when the nonce is zero and the amount equals the mask |
| Encryption.RoundTrip | app/src/lib/encryption.ts:58-130 | a ciphertext that is not all zeros decrypts under the same key to the amount mod 2^64 |
| Encryption.RoundTripFreshNonce | app/src/lib/encryption.ts:69 | with a non-zero nonce the ciphertext is never the empty sentinel, so the round trip always holds |
| Encryption.RoundTripU64 | app/src/lib/encryption.ts:58-130 | a u64 amount encrypted with a non-zero nonce decrypts to itself |
| Encryption.SentinelCollision | app/src/lib/encryption.ts:102-105 | an all-zero nonce whose mask equals the amount yields a ciphertext that reads as 0 |
| Encryption.WrongLengthIsNull | app/src/lib/encryption.ts:98-100 | any ciphertext not 32 bytes long decrypts to null |
| Encryption.ZeroSentinel | app/src/lib/encryption.ts:103-104 | 32 zero bytes decrypt to 0 under every key |
| Encryption.DecryptionDependsOnKeyPrefix | app/src/lib/encryption.ts:115 | two keys that agree on their first 32 bytes decrypt every ciphertext alike |
| Encryption.GenerateBorrowProof | app/src/lib/encryption.ts:139-164 | 64 bytes: 16-byte prefixes of both ciphertexts, the amount at 32, the LTV at 40, zeros after |
| Encryption.GenerateWithdrawalProof | app/src/lib/encryption.ts:171-186 | 64 bytes: both prefixes, the amount at 32, zeros after (the LTV is not used) |
| Encryption.GenerateLiquidationProof | app/src/lib/encryption.ts:193-207 | 64 bytes: both prefixes, the threshold at 32, zeros after |
| Encryption.ComputeHealthFactor | app/src/lib/encryption.ts:215-228 | infinite exactly when there is no debt; otherwise a whole number |
| Encryption.HealthFactorIsFloor | app/src/lib/encryption.ts:215-228 | on non-negative amounts with debt, the factor is the floor of collateral·threshold·100 / (debt·10000) |
| Encryption.HealthFactorExamples | app/src/lib/encryption.ts:215-227 | infinite health without debt; 100 at the liquidation boundary; 50 and 160 on sample balances |
| Encryption.HealthAtLeast100Iff | app/src/lib/encryption.ts:224-227 | with debt, the health percentage is at least 100 exactly when collateral × threshold ≥ debt × 10000 |
| Encryption.HealthMonotoneInCollateral | app/src/lib/encryption.ts:224-227 | at fixed debt and threshold, more collateral never lowers the health percentage |
| Accounts.EncodePool | programs/shadow-lend/src/lib.rs:526-540 | a pool account is 136 bytes |
| Accounts.EncodePosition | programs/shadow-lend/src/lib.rs:544-556 | a position account is 146 bytes |
| Accounts.PoolLayout | programs/shadow-lend/src/lib.rs:528-540 | each pool field sits at its Borsh offset: three keys, three u16, three u64, bump at 134, flag at 135 |
| Accounts.PositionLayout | programs/shadow-lend/src/lib.rs:546-556 | each position field sits at its Borsh offset: two keys, two ciphertexts, i64 time, flag at 144, bump at 145 |
| ProofVerifier.ComputeProofBinding | programs/shadow-lend/src/lib.rs:666-686 | the binding is the first 16 bytes of SHA-256 over both ciphertexts, the amount and the parameter |
| ProofVerifier.BindingInputInjective | programs/shadow-lend/src/lib.rs:675-680 | the hashed input determines the ciphertexts, the amount and the parameter |
| ProofVerifier.VerifyBorrowProof | programs/shadow-lend/src/lib.rs:690-754 | accepted only when 64 bytes long, bound to both stored ciphertexts and carrying the amount, with a hash field that is zero or the binding, and accepted exactly then |
| ProofVerifier.VerifyWithdrawalProof | programs/shadow-lend/src/lib.rs:756-791 | accepted exactly when 64 bytes long, bound to both stored ciphertexts and carrying the amount |
| ProofVerifier.VerifyLiquidationProof | programs/shadow-lend/src/lib.rs:793-822 | accepted exactly when 64 bytes long and bound to both stored ciphertexts; the threshold bytes are not checked |
| ProofVerifier.VerifiersCompared | programs/shadow-lend/src/lib.rs:690-822 | liquidation accepts a long enough proof bound to the position; withdrawal additionally needs the amount; borrow needs that too, and a withdrawal-valid proof passes the borrow check exactly when its hash field is zero or the binding |
| ProofVerifier.BorrowHashMustBind | programs/shadow-lend/src/lib.rs:719-751 | an accepted borrow proof with a non-zero hash field carries exactly the binding |
| ProofVerifier.GeneratedBorrowProofAccepted | programs/shadow-lend/src/lib.rs:690-754 | the proof the client generates from the stored ciphertexts passes the borrow verifier |
| ProofVerifier.GeneratedWithdrawalProofAccepted | programs/shadow-lend/src/lib.rs:756-791 | the client's withdrawal proof passes the withdrawal verifier |
| ProofVerifier.GeneratedLiquidationProofAccepted | programs/shadow-lend/src/lib.rs:793-822 | the client's liquidation proof is 64 bytes, carries the threshold and passes the liquidation verifier |
| ProofVerifier.GeneratedProofRejectsOtherAmount | programs/shadow-lend/src/lib.rs:712-717 | a generated borrow or withdrawal proof is rejected for any other amount |
| ProofVerifier.StaleProofRejected | programs/shadow-lend/src/lib.rs:700-710 | a proof built from a different collateral ciphertext is rejected by every verifier |
| ProofVerifier.LiquidationIgnoresTail | programs/shadow-lend/src/lib.rs:798-821 | the liquidation verifier looks only at the length and the first 32 bytes |
| ProofVerifier.WithdrawalIgnoresTail | programs/shadow-lend/src/lib.rs:762-789 | the withdrawal verifier looks only at the length and the first 40 bytes |
| Ledger.Ledger.InitializePool | programs/shadow-lend/src/lib.rs:23-58 | fails when the pool exists; otherwise stores the configuration with zero counters, active |
| Ledger.Ledger.OpenPosition | programs/shadow-lend/src/lib.rs:61-86 | needs the pool and no position; stores an empty active position for the owner and counts it, failing on overflow |
| Ledger.Ledger.DepositCollateral | programs/shadow-lend/src/lib.rs:88-128 | rejects 0, missing funds and overflow; moves lamports owner→vault, stores the ciphertext, adds to total deposits; conserves lamports |
| Ledger.Ledger.Borrow | programs/shadow-lend/src/lib.rs:131-170 | rejects 0, a failing borrow proof, a short vault and overflow; moves lamports vault→owner, stores the debt ciphertext |
| Ledger.Ledger.Repay | programs/shadow-lend/src/lib.rs:172-213 | rejects 0 and missing funds; moves lamports owner→vault, stores the debt ciphertext, total borrows saturate at 0 |
| Ledger.Ledger.WithdrawCollateral | programs/shadow-lend/src/lib.rs:215-255 | rejects 0, a failing withdrawal proof and a short vault; moves lamports vault→owner, total deposits saturate at 0 |
| Ledger.Ledger.Liquidate | programs/shadow-lend/src/lib.rs:257-292 | needs an active position and a liquidation proof; deactivates it and sends everything above the rent minimum to the liquidator |
| Ledger.Ledger.ClosePosition | programs/shadow-lend/src/lib.rs:295-314 | allowed only when the debt ciphertext is 32 zero bytes; removes the position and uncounts it |
| UsePool.DeserializePool | app/src/hooks/usePool.ts:20-67 | throws below 136 bytes; otherwise reads every field at its offset |
| UsePool.PoolRoundTrip | app/src/hooks/usePool.ts:20-67 | decoding the Anchor encoding of a pool, with any trailing bytes, gives the pool back |
| UsePool.PoolReadsOnlyFields | app/src/hooks/usePool.ts:20-67 | the decoder ignores the discriminator and bytes past 136 |
| UsePool.PoolActiveByte | app/src/hooks/usePool.ts:50-53 | the active flag is byte 135 being exactly 1; the bump is byte 134 |
| UsePool.PoolReencode | app/src/hooks/usePool.ts:20-67 | re-encoding a decoded pool gives the account bytes back exactly when the flag byte is 0 or 1 |
| UsePool.PoolHook.FetchPool | app/src/hooks/usePool.ts:77-103 | a missing account clears the pool and stats; a short one records an error; otherwise pool and stats come from the decoded fields |
| UsePosition.DeserializePosition | app/src/hooks/usePosition.ts:29-61 | throws below 146 bytes; otherwise reads every field at its offset |
| UsePosition.PositionRoundTrip | app/src/hooks/usePosition.ts:29-61 | decoding the Anchor encoding of a position gives it back |
| UsePosition.PositionReadsOnlyFields | app/src/hooks/usePosition.ts:29-61 | the decoder ignores the discriminator and bytes past 146 |
| UsePosition.PositionFields | app/src/hooks/usePosition.ts:38-47 | both ciphertexts are 32 bytes at 72 and 104; active is byte 144 being 1 |
| UsePosition.Decode | app/src/hooks/usePosition.ts:118-141 | the decoded position exists exactly when both ciphertexts decrypt |
| UsePosition.DecodeRecord | app/src/hooks/usePosition.ts:126-140 | a record exactly when both ciphertexts decrypt; it holds the two plaintexts, the account's owner, pool and flag, the timestamp in milliseconds and the health factor at the pool's threshold |
| UsePosition.DecodeRecordOfEncrypted | app/src/hooks/usePosition.ts:118-141 | ciphertexts the client wrote decode to their amounts and the health factor at the pool's threshold |
| UsePosition.DecodeRecordOfPlaintexts | app/src/hooks/usePosition.ts:118-141 | whatever the ciphertexts, the decoded record holds what they decrypt to |
| UsePosition.DecodeRecordOfEmpty | app/src/hooks/usePosition.ts:118-141 | a freshly opened position decodes to zero collateral and debt with infinite health |
| UsePosition.PositionHook.FetchPosition | app/src/hooks/usePosition.ts:93-151 | no wallet or no account clears the state; a short account records an error; otherwise stores the position and decodes it when key and pool are there and both fields decrypt |
| UsePosition.PositionHook.Redecode | app/src/hooks/usePosition.ts:170-192 | the effect re-decodes the stored position when key, position and pool are there |
| UsePosition.FetchAndRedecodeAgree | app/src/hooks/usePosition.ts:93-192 | decoding at fetch time and in the later effect give the same record |
| UseProgram.DecodePoolState | app/src/hooks/useProgram.ts:101-145 | throws below 134 bytes; otherwise the pool fields at their offsets, active only when byte 135 is 1 |
| UseProgram.PoolDecodersAgree | app/src/hooks/useProgram.ts:101-145 | on full accounts this decoder agrees with `deserializePool` on every field but the bump |
| UseProgram.PoolStateRoundTrip | app/src/hooks/useProgram.ts:101-145 | decoding an encoded pool gives every field but the bump |
| UseProgram.PoolStateAcceptsShortAccounts | app/src/hooks/useProgram.ts:140-144 | 134- and 135-byte accounts decode, as inactive pools |
| UseProgram.DecodePositionStateAsWritten | app/src/hooks/useProgram.ts:239-270 | the decoder as written skips 4 bytes before each ciphertext and needs 152 bytes |
| UseProgram.AsWrittenRejectsEveryPositionAccount | app/src/hooks/useProgram.ts:249-261 | every 146-byte position account makes that decoder throw |
| UseProgram.DecodePositionState | app/src/hooks/useProgram.ts:239-270 | without the skips: the position fields at their Borsh offsets |
| UseProgram.PositionDecodersAgree | app/src/hooks/useProgram.ts:239-270 | the corrected decoder agrees with `deserializePosition` on every full account |
| UseProgram.PositionStateRoundTrip | app/src/hooks/useProgram.ts:239-270 | the corrected decoder gives back every field of an encoded position but the bump |
| UseProgram.DecryptPosition | app/src/hooks/useProgram.ts:309-368 | amounts and borrow limit are never negative; health is infinite exactly when the shown debt is 0 |
| UseProgram.Ratio | app/src/hooks/useProgram.ts:343-350 | the health ratio is the percentage divided by 100 |
| UseProgram.DecryptEmptyPosition | app/src/hooks/useProgram.ts:314-324 | two all-zero fields show nothing owed and infinite health |
| UseProgram.ShortcutAgreesWithDecrypt | app/src/hooks/useProgram.ts:327-332 | on 32-byte fields the all-zero shortcut gives what decryption gives |
| UseProgram.DecryptEncryptedPosition | app/src/hooks/useProgram.ts:309-368 | client ciphertexts show their SOL amounts, the ratio at the 80% threshold and the limit floor(c·0.75) − d clamped at 0 |
| UseProgram.DecryptFromPlaintexts | app/src/hooks/useProgram.ts:327-360 | a position shows the amounts its fields decrypt to |
| UseLending.DiscriminatorsDistinct | app/src/hooks/useLending.ts:57-64 | the six instruction discriminators are pairwise distinct |
| UseLending.ParseInstruction | programs/shadow-lend/src/lib.rs:17-314 | instruction data that reaches any of the eight handlers is at least 8 bytes long; the round trips with the client's encoders are `ParseAmountData`, `ParseProofData`, `ParseBareData` and `ReselectedDataParses` |
| UseLending.OnlyProgramSelectorsParse | programs/shadow-lend/src/lib.rs:17-18 | only data starting with one of the program's eight selectors reaches a handler |
| UseLending.SelectorsCompared | app/src/hooks/useLending.ts:56-64 | the client's open, withdraw and close selectors are the program's; its deposit, borrow and repay selectors are none of the program's |
| UseLending.ClientSelectorsRefused | app/src/hooks/useLending.ts:59-61 | the client's deposit, repay and borrow data, as written, are refused before any handler runs |
| UseLending.AmountDataFields | app/src/hooks/useLending.ts:163-167 | deposit/repay data is 48 bytes: discriminator, u64 amount, ciphertext |
| UseLending.ProofDataFields | app/src/hooks/useLending.ts:215-226 | borrow/withdraw data: discriminator, amount, ciphertext, u32 length, proof |
| UseLending.ParseAmountData | programs/shadow-lend/src/lib.rs:88-92 | amount data under the program's deposit or repay selector reaches that handler with the amount and ciphertext it carries |
| UseLending.ParseProofData | programs/shadow-lend/src/lib.rs:131-136 | proof data under the program's borrow or withdraw selector reaches that handler with amount, ciphertext and proof |
| UseLending.ParseBareData | app/src/hooks/useLending.ts:125-144 | the client's bare open and close data dispatch to those handlers as written |
| UseLending.ReselectedAmountDataParses | app/src/hooks/useLending.ts:56-61 | the client's deposit and repay data, with the selector corrected, reach their handlers with the client's arguments |
| UseLending.ReselectedProofDataParses | app/src/hooks/useLending.ts:56-64 | the client's borrow and withdraw data, with the selector corrected, reach their handlers with the client's arguments and proof |
| UseLending.ReselectedDataParses | app/src/hooks/useLending.ts:56-64 | with the selectors corrected, every one of the six client instructions reaches the handler it names with the client's arguments |
| UseLending.WriteAmountData | app/src/hooks/useLending.ts:164-167 | the buffer is the amount data, or a range error for an amount outside u64 |
| UseLending.WriteProofData | app/src/hooks/useLending.ts:216-226 | the buffer is the proof data, or a range error for an amount outside u64 |
| UseLending.ClampedSub | app/src/hooks/useLending.ts:263-266 | never negative; the difference or 0 |
| UseLending.ClampedSubIsSaturatingSub | app/src/hooks/useLending.ts:263-266 | the client's clamp is the program's `saturating_sub` on u64 values |
| UseLending.BorrowNewDebt | app/src/hooks/useLending.ts:203-204 | the new debt exceeds the decoded debt (0 when absent) by the amount |
| UseLending.BorrowCiphertextDecrypts | app/src/hooks/useLending.ts:203-205 | the debt ciphertext borrow sends decrypts to the new debt (mod 2^64) |
| UseLending.DepositCollateralData | app/src/hooks/useLending.ts:146-184 | wallet/pool, then amount checks; the data carries the deposit amount encrypted on its own |
| UseLending.DepositCollateralDataCorrected | app/src/hooks/useLending.ts:161 | the same guards; the encrypted value is the running collateral plus the amount |
| UseLending.BorrowData | app/src/hooks/useLending.ts:186-244 | guards, then the running debt encrypted and a borrow proof over the stored ciphertexts |
| UseLending.RepayData | app/src/hooks/useLending.ts:246-290 | guards, then the clamped remaining debt encrypted |
| UseLending.WithdrawCollateralData | app/src/hooks/useLending.ts:292-351 | guards (position and decoded position), then the clamped remaining collateral and a withdrawal proof |
| UseLending.BareData | app/src/hooks/useLending.ts:125-144 | open and close fail exactly without a wallet and otherwise send the 8-byte discriminator |
| UseLending.ErrorMessage | app/src/hooks/useLending.ts:115-117 | an `Error` records its message, anything else "Transaction failed" |
| UseLending.Steps | app/src/hooks/useLending.ts:90-119 | two or three states, beginning with pending for the action's type and ending in success or error |
| UseLending.StepsShape | app/src/hooks/useLending.ts:90-119 | pending, then confirming once a blockhash arrives; success with the signature exactly when all three calls return; otherwise error with a message |
| UseLending.ResultMatchesFinalState | app/src/hooks/useLending.ts:106-119 | the returned signature is the one in the success state; what is rethrown is the recorded error |
| UseLending.LendingHook.ExecuteTransaction | app/src/hooks/useLending.ts:81-123 | throws without a wallet and changes nothing; otherwise goes through exactly the states of `Steps` and returns their result |
| UseLending.LendingHook.Submit | app/src/hooks/useLending.ts:146-181 | a builder that throws, or a missing wallet, leaves the state alone and returns that error; otherwise the states of `Steps` are appended, the result is the transaction's signature or its error, it succeeds exactly when the final status is success, and the status type is the action's |
| UseLending.ActionTxType | app/src/hooks/useLending.ts:143-369 | open and deposit report as deposit, withdraw and close as withdraw, borrow and repay as themselves; none reports under liquidate |
| LendingForm.NeedsPosition | app/src/components/lend/LendingForm.tsx:40 | a deposit or borrow without a position opens one; repay and withdraw never do |
| LendingForm.ButtonLabel | app/src/components/lend/LendingForm.tsx:84-100 | the label is one of the four fixed texts or the action's own label |
| LendingForm.ButtonLabelPriority | app/src/components/lend/LendingForm.tsx:84-100 | each label appears exactly under its condition, in priority order |
| LendingForm.EstimateNewHealth | app/src/components/lend/LendingForm.tsx:114-141 | null without position, pool or amount; otherwise the health of the projected balances |
| LendingForm.ZeroAmountKeepsHealth | app/src/components/lend/LendingForm.tsx:114-141 | a zero amount projects the health the position already shows |
| LendingForm.FullRepayIsInfinite | app/src/components/lend/LendingForm.tsx:128-136 | repaying at least the debt projects infinite health |
| LendingForm.DepositNeverLowersHealth | app/src/components/lend/LendingForm.tsx:122-140 | a deposit never projects lower health |
| LendingForm.WithdrawNeverRaisesHealth | app/src/components/lend/LendingForm.tsx:131-140 | a withdrawal never projects higher health |
| LendingForm.ProjectionMatchesBuilders | app/src/components/lend/LendingForm.tsx:121-133 | the form projects the same new balances the transaction builders encrypt |
| HealthIndicator.GetHealthStatus | app/src/components/ui/HealthIndicator.tsx:19-33 | the five bands each hold exactly on their interval; levels 100, 80, 60, 40, 20 from Safe to Critical, Infinity is Safe; colour follows level |
| HealthIndicator.LevelMonotone | app/src/components/ui/HealthIndicator.tsx:19-33 | a healthier factor never shows a lower level |
| HealthIndicator.BarWidth | app/src/components/ui/HealthIndicator.tsx:66 | the bar width is the level and at most 100 |
| HealthIndicator.CriticalIffLiquidatable | app/src/components/ui/HealthIndicator.tsx:19-33 | with debt, "Critical" shows exactly below the liquidation boundary |
| HealthIndicator.DigitsRoundTrip | app/src/components/ui/HealthIndicator.tsx:36-37 | the printed digits of a number read back as that number |
| HealthIndicator.DisplayValue | app/src/components/ui/HealthIndicator.tsx:36-37 | "---" for infinite health; otherwise digits followed by "%" |
| HealthIndicator.DisplayDashesIff | app/src/components/ui/HealthIndicator.tsx:36-37 | "---" is shown exactly for infinite health |
| HealthIndicator.DisplayWholePercentage | app/src/components/ui/HealthIndicator.tsx:36-37 | a whole percentage prints as its digits followed by % |
| HealthIndicator.RatioScaleReadsCritical | app/src/hooks/useProgram.ts:343-350 | any ratio below 100 (percentage below 10000) falls in the "Critical" band |
| Constants.TruncateAddress | app/src/lib/constants.ts:64-66 | at least the three dots, and at most twice the address plus three |
| Constants.TruncateWithinLength | app/src/lib/constants.ts:64-66 | for 0 < chars ≤ length: first chars, "...", last chars; length 2·chars+3 |
| Constants.TruncateDefault | app/src/lib/constants.ts:64-66 | the default keeps 4 characters on each side, 11 in all |
| Constants.TruncateZero | app/src/lib/constants.ts:64-66 | chars = 0 gives "..." and then the whole address (`slice(-0)`) |
| Constants.TruncateBeyondLength | app/src/lib/constants.ts:64-66 | chars beyond the length repeat the whole address on both sides |
| Constants.TruncateNegative | app/src/lib/constants.ts:64-66 | negative chars drop characters from the end and then the start, as `slice` does |
| Scenarios.ReceiveDeposit | programs/shadow-lend/src/lib.rs:88-92 | the dispatcher hands the deposit handler the client's amount and ciphertext, selector corrected |
| Scenarios.ReceiveRepay | programs/shadow-lend/src/lib.rs:172-176 | the dispatcher hands the repay handler the client's amount and ciphertext, selector corrected |
| Scenarios.ReceiveBorrow | programs/shadow-lend/src/lib.rs:131-136 | the dispatcher hands the borrow handler the client's amount, ciphertext and proof, selector corrected |
| Scenarios.DepositedLedger | app/src/hooks/useLending.ts:146-184 | a client deposit (selector corrected) parsed and handled stores a ciphertext that decodes to the deposit, with the vault holding it |
| Scenarios.DepositTwiceAsWritten | app/src/hooks/useLending.ts:161 | after two deposits the pool counts both, but the position shows only the second |
| Scenarios.DepositTwiceCorrected | app/src/hooks/useLending.ts:161 | with the running total encrypted the position shows both deposits |
| Scenarios.BorrowedLedger | programs/shadow-lend/src/lib.rs:131-170 | a client borrow (selector corrected) with its generated proof passes the handler; the position then decodes to the collateral and the borrowed debt |
| Scenarios.RepayInFullThenClose | programs/shadow-lend/src/lib.rs:295-303 | after repaying the whole debt the client shows 0 owed, yet closing fails because the debt ciphertext is not zero bytes |
| Scenarios.DepositThenClose | programs/shadow-lend/src/lib.rs:295-314 | closing succeeds with collateral still in the vault and none of it returned |
| Scenarios.RatioScaleOnIndicator | app/src/hooks/useProgram.ts:343-350 | a position below 100 times its boundary shows "Critical" on the ratio scale; 200/100 reads "Healthy" as a percentage and "Critical" as a ratio |

## Left out

- Floating point: JavaScript `Number` values are modelled as exact reals. This
  covers `Number(bigint)` precision, `Number(lastUpdate) * 1000` and the
  SOL conversions.
- `toFixed` is modelled for finite values below 1e21 only, with halves rounded
  away from zero. Exponent notation, `NaN` and `-Infinity` are not modelled.
- The amount field's parsing is not modelled: `parseSolToLamports`,
  `formatSol`, `bpsToPercent` and `getMaxAmount` in `LendingForm.tsx`. The
  amount is integer lamports, and an empty field is `None`.
- `deriveEncryptionKey`, the random nonce source, base64 helpers
  (`encodeEncrypted`/`decodeEncrypted`) and the hash functions are parameters
  or left out. They are wallet signing, randomness and library code.
- PDA derivation, account keys and `app/src/lib/program.ts` are left out. The ledger holds one pool and one
  owner's position, so seeds and signer checks are not modelled.
- Not modelled: rent for `init`, the lamports returned by `close`, account
  ownership. The account checks each handler begins with are modelled.
- The vault PDA (programs/shadow-lend/src/lib.rs:381-387) is never created by
  the program, so it stays system-owned, and the runtime refuses a program's
  direct lamport debit from an account it does not own (lines 149, 233 and
  276). The model does not track ownership, so `Ledger.Ledger.Borrow`,
  `Ledger.Ledger.WithdrawCollateral`, `Ledger.Ledger.Liquidate` and
  `Scenarios.BorrowedLedger` succeed where the deployed program would fail.
- `Unauthorized` is declared in the error enum but no handler raises it. It
  appears in the model only as a constructor.
- RPC, React state and effects, subscriptions, refresh intervals and the
  refetch after a successful transaction are left out. They are I/O and
  scheduling.
- In `useProgram.ts`, the zero record `fetchPosition` returns without a key
  (lines 274-286) is left out, as are the protocol stats and the utilisation
  figure. They are display-only.
- `app/src/app/lend/page.tsx` and the other pages are not part of this model.
- UseLending.ParseInstruction: the program's selectors are written out as
  constants, the first 8 bytes of sha256("global:<handler name>"); the hash
  that derives them is not modelled. For deposit_collateral, borrow and repay
  they are 9c 83 8e 74 92 f7 a2 78, e4 fd 83 ca cf 74 59 12 and ea 67 43 52 d0
  ea db a6, which differ from the client's table. `ParseAmountData` and
  `ParseProofData` state the round trip under the program's selectors, and the
  five scenarios that parse client data use the corrected selectors.
- UseLending.ProofData: requires a proof shorter than 2^32 bytes. The client's
  proofs are 64 bytes, and `writeUInt32LE` would throw above that bound.

## Findings

| source | as written | input that shows it | evidently intended | confidence | as-written member | corrected member |
|---|---|---|---|---|---|---|
| app/src/hooks/useProgram.ts:249-261 | the position decoder skips a 4-byte "length prefix" before each ciphertext, but `[u8; 32]` fields have none | any position account the program creates (146 bytes): the read at offset 144 needs 152 bytes and throws | read both ciphertexts at 72 and 104, with no skips | not executed | UseProgram.AsWrittenRejectsEveryPositionAccount | UseProgram.PositionStateRoundTrip |
| app/src/hooks/useLending.ts:59-61 | the deposit, borrow and repay selectors are not the first 8 bytes of sha256("global:<name>"), which the dispatcher that `#[program]` generates (programs/shadow-lend/src/lib.rs:17) matches; the client's own comment at line 56 names that derivation | any deposit: its data begins 8a 93 a0 34 dc be 75 0d, the program expects 9c 83 8e 74 92 f7 a2 78 and refuses it before the handler; likewise borrow (e4 fd 83 ca cf 74 59 12 expected) and repay (ea 67 43 52 d0 ea db a6 expected) | the Anchor selectors, which the open, withdraw and close entries already are | not executed | UseLending.ClientSelectorsRefused | UseLending.ReselectedDataParses |
| app/src/hooks/useLending.ts:161 | a deposit encrypts the deposit amount alone, and the program overwrites the stored collateral with it | deposit 1 SOL and then 2 SOL, with the deposit selector of the row above corrected so that the data reaches lib.rs:112: the pool counts 3 SOL but the position decodes to 2 SOL | encrypt the current collateral plus the amount, as borrow does for debt | not executed | Scenarios.DepositTwiceAsWritten | Scenarios.DepositTwiceCorrected |
