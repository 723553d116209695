# Verified model of the FIPS mesh protocol port

A Dafny model of the protocol core of this repository: the Noise XX, XK and IK handshakes, the
end-to-end session table that drives XX, the rekey epoch slots of a link peer, the replay window, the
npub codec, the BLE retry book, the negotiation payload codec and the two framing layers. Each module
has the same shape. What the code computes is stated as functions of values; the classes, loops and
buffer writes of the source are methods proved equal to those functions; and the properties are lemmas
about the functions, over all inputs, runs or reachable states.

`dafny verify dfyconfig.toml` checks the project.

## Layout

| file | contents |
|---|---|
| `Words`, `Digits`, `LittleEndian`, `Results` | machine words and their bit operators, positional digits, little-endian integers, `Option` |
| `Crypto`, `Noise` | the primitives as parameters with the laws the proofs use; CipherState and SymmetricState (sections 5.1 and 5.2 of the Noise Protocol Framework, revision 34) |
| `Patterns`, `Handshakes`, `KeySchedule`, `HandshakeStates` | pattern tokens and agreement for any token list (section 5.3); the XX, XK and IK messages (section 7.5), rollback; their bytes and keys spelled out; the handshake object |
| `Sessions`, `SessionSafety`, `Simultaneous`, `Rekeys`, `SessionTables` | the session handlers, what no input can do, simultaneous initiation, a rekey from timer to cutover, the table in place and its bounds |
| `Epochs`, `Links` | current, pending and previous session of a peer, K-bit, drain and session indices; the two ends of a link |
| `Replay`, `Channel` | the replay bitmap (section 3.4.3 of RFC 4303, section 2 of RFC 6479); sender and window over an unreliable network |
| `Regroup`, `Checksum`, `Field`, `Bech32` | 8-to-5-bit regrouping, the BIP-173 checksum, its polynomials over GF(32), the NIP-19 npub codec |
| `Probes` | the BLE retry book and the loop that drives it |
| `Negotiation`, `Deframer`, `FmpFrames` | negotiation payloads, the serial bridge, link frames |

## Assumptions

Hash, key derivation, Diffie-Hellman and AEAD are arbitrary functions (`Crypto.Suite`). `Crypto.Lawful`
lists all that is assumed of them: Diffie-Hellman commutes and does not depend on the parity of the
public key, a derived public key is valid and 33 bytes long, opening what was sealed returns it, sealing
adds and opening removes 16 bytes. `Crypto.LawfulSuiteExists` shows the list is consistent. Nothing is
assumed about what does not open.

Clocks, fresh ephemeral keys, the rate limiter's verdict, whether a datagram could be sent and how a BLE
dial ends are inputs of the step that uses them. `usize` is 64 bits wide.

## Where code and documentation differ

- The handshake AEAD carries no associated data, where section 5.2 of the Noise Protocol Framework
  passes the hash; agreement is proved for the code.
- The second mix of IK message 2 pairs the responder's static key with the initiator's ephemeral key on
  both ends, the reverse of the framework's `se`; agreement holds for the code.
- BIP-173 asks decoders to reject mixed case; the decoder wants a lower-case prefix and folds the data
  (`Bech32.AcceptsExactly`, `Bech32.MixedCaseAccepted`).
- The comment on `abandon_rekey` says it also clears a pending session; with a rekey armed it does not
  (`Epochs.AbandonKeepsPending`).
- `into_session` expects the remote static key to be known after the handshake; IK and XK methods do not
  check the pattern, and a responder that mixes them can complete without it
  (`HandshakeStates.MixedPatternsPanic`).

## Model

| member | source | states |
|---|---|---|
| `Handshakes.XxAgreement` | `specs/fips-next/noise-handshake.rs:312-738` | every honest XX run, with or without payloads on messages 2 and 3, for all keys and epochs: no step fails or panics, both ends hold equal chaining key, hash and cipher, the sessions are the two halves of one key pair, each end holds the other's static key and epoch |
| `Handshakes.XkAgreement` | `specs/fips/noise-handshake.rs:650-1013` | the same for XK, also when the initiator was given the responder key with the wrong parity |
| `Handshakes.IkAgreement` | `specs/fips/noise-handshake.rs:391-637` | the same for IK in two messages, for either parity of the given key |
| `Handshakes.SameStart` | `specs/fips/noise-handshake.rs:172-303` | the pre-message hashes of both ends are equal whatever parity the initiator was given |
| `Patterns.TokensAgree` | `specs/fips-next/noise-handshake.rs:390-514` | for every list of pattern tokens that both ends hold the keys for: what one end writes the other reads to the last byte, both end in the same state, and the size and key ring are the predicted ones |
| `Patterns.SecretsAgree` | `specs/fips/noise-handshake.rs:562-564` | both ends derive the same Diffie-Hellman secret for each two-letter token, including the IK pairing of responder static with initiator ephemeral |
| `Noise.SealedOpens` | `specs/fips-next/noise-handshake.rs:90-103` | two equal symmetric states: what one encrypts and hashes the other decrypts and hashes, and they stay equal |
| `KeySchedule.XxKeySchedule` | `specs/fips-next/noise-handshake.rs:312-738` | the keys of every honest XX run, whatever payloads ride on it, spelled out from the secrets: the chaining key is the protocol name with ee, es and se derived in, in that order; the initiator sends under the first half of its last derivation and receives under the second, the responder the reverse, from counter zero with nothing received |
| `KeySchedule.XkKeySchedule` | `specs/fips/noise-handshake.rs:650-1013` | the same for XK, from es, ee and se, for either parity of the given key |
| `KeySchedule.IkKeySchedule` | `specs/fips/noise-handshake.rs:391-637` | the same for IK, from es, ss, ee and es once more, where the pattern would have se |
| `KeySchedule.StartIsTheName` | `specs/fips-next/noise-handshake.rs:43-62` | the first hash and chaining key are the protocol name padded with zeros to 32 bytes, or its hash if it is longer, and there is no key |
| `KeySchedule.StartHashes` | `specs/fips/noise-handshake.rs:172-303` | XX hashes nothing before message 1, IK and XK the x coordinate of the responder behind a byte 2 |
| `KeySchedule.XxMessage1` | `specs/fips-next/noise-handshake.rs:312-342` | message 1 is the ephemeral key, hashed in; nothing else changes |
| `KeySchedule.XxMessage2` | `specs/fips-next/noise-handshake.rs:390-447` | message 2 byte for byte: the ephemeral key, the static key sealed under what ee derives, the epoch sealed under what es derives from that; the writer ends with that chaining key, the hash of all three parts and that key at counter 1 |
| `KeySchedule.Message3` | `specs/fips-next/noise-handshake.rs:587-630` | message 3 likewise, in XX and in XK: the static key sealed under the key and counter message 2 left, the epoch under what se derives |
| `KeySchedule.XkMessage1` | `specs/fips/noise-handshake.rs:650-689` | XK message 1: the ephemeral key alone, and es mixed in |
| `KeySchedule.XkMessage2` | `specs/fips/noise-handshake.rs:742-787` | XK message 2: the ephemeral key and the epoch sealed under what ee derives |
| `KeySchedule.IkMessage1` | `specs/fips/noise-handshake.rs:391-450` | IK message 1: the ephemeral key, the static key sealed under what es derives, the epoch under what ss derives from that |
| `KeySchedule.IkMessage2` | `specs/fips/noise-handshake.rs:525-577` | IK message 2: the ephemeral key and the epoch sealed under what ee and then es derive |
| `Handshakes.RollbackIsExact` | `specs/fips-next/noise-handshake.rs:453-577` | restoring the saved fields after reading message 2, and any payload after it, gives back the whole handshake, for every message, accepted or refused |
| `Handshakes.RefusedReadChangesNothing` | `specs/fips/noise-handshake.rs:856-872` | a refused message 2 leaves every field of an XX or XK handshake as it was |
| `Handshakes.OutOfTurn` | `specs/fips-next/noise-handshake.rs:312-738` | for every message of every pattern: out of turn iff the role or the progress is wrong, and then, or at another size, nothing changes; in turn the progress moves on; no session before the last message |
| `Handshakes.ReadingKeepsKeysValid` | `specs/fips-next/noise-handshake.rs:453-514` | the peer keys a handshake holds stay valid ones, whatever bytes it reads and however that ends |
| `HandshakeStates.HandshakeState.NewXx` | `specs/fips-next/noise-handshake.rs:176-225` | a fresh handshake in either role holds no remote key, no epoch and an unkeyed cipher |
| `HandshakeStates.HandshakeState.NewInitiator` | `specs/fips/noise-handshake.rs:182-272` | IK and XK initiator: the normalised responder key is in the hash, the key as given is kept |
| `HandshakeStates.HandshakeState.NewResponder` | `specs/fips/noise-handshake.rs:215-303` | IK and XK responder: its own normalised key is in the hash |
| `HandshakeStates.HandshakeState.SetLocalEpoch` | `specs/fips-next/noise-handshake.rs:248-250` | only the local epoch changes |
| `HandshakeStates.HandshakeState.WriteMessage1` | `specs/fips-next/noise-handshake.rs:312-342` | the object after the call and the result are those of processing the tokens `e` in the right role and progress; never panics |
| `HandshakeStates.HandshakeState.ReadMessage1` | `specs/fips-next/noise-handshake.rs:347-378` | the object after the call and the result are those of processing the tokens `e` off exactly 33 bytes |
| `HandshakeStates.HandshakeState.WriteMessage2` | `specs/fips-next/noise-handshake.rs:390-447` | the object after the call and the result are those of processing the tokens `e, ee, s, es, epoch`; with the epoch set it never panics |
| `HandshakeStates.HandshakeState.ReadMessage2` | `specs/fips-next/noise-handshake.rs:453-514` | the object after the call and the result are those of processing the tokens `e, ee, s, es, epoch`, including how far the state has moved when a step fails |
| `HandshakeStates.HandshakeState.TryReadMessage2` | `specs/fips-next/noise-handshake.rs:548-564` | on refusal the handshake is unchanged; on success the rollback holds the fields from before |
| `HandshakeStates.HandshakeState.RestoreMessage2` | `specs/fips-next/noise-handshake.rs:571-577` | exactly the saved fields are put back |
| `HandshakeStates.HandshakeState.WriteMessage3` | `specs/fips-next/noise-handshake.rs:587-630` | the object after the call and the result are those of processing the tokens `s, se, epoch`, for XX and for XK; completes the handshake |
| `HandshakeStates.HandshakeState.ReadMessage3` | `specs/fips-next/noise-handshake.rs:636-688` | the object after the call and the result are those of processing the tokens `s, se, epoch`, for XX and for XK |
| `HandshakeStates.HandshakeState.EncryptPayload` | `specs/fips-next/noise-handshake.rs:698-700` | sealed under and hashed into the running state |
| `HandshakeStates.HandshakeState.DecryptPayload` | `specs/fips-next/noise-handshake.rs:706-708` | opened under and hashed into the running state |
| `HandshakeStates.HandshakeState.IntoSession` | `specs/fips-next/noise-handshake.rs:713-738` | keys assigned by role, the remote static and the hash carried over, an error before completion; the panic is reached exactly by a complete handshake without the remote static key, which an XX object or an initiator never is |
| `HandshakeStates.HandshakeState.WriteXkMessage1` | `specs/fips/noise-handshake.rs:650-689` | the object after the call and the result are those of processing the tokens `e, es`; on an object of either pattern |
| `HandshakeStates.HandshakeState.ReadXkMessage1` | `specs/fips/noise-handshake.rs:695-732` | the object after the call and the result are those of processing the tokens `e, es`; on an object of either pattern |
| `HandshakeStates.HandshakeState.WriteXkMessage2` | `specs/fips/noise-handshake.rs:742-787` | the object after the call and the result are those of processing the tokens `e, ee, epoch`; on an object of either pattern |
| `HandshakeStates.HandshakeState.ReadXkMessage2` | `specs/fips/noise-handshake.rs:793-839` | the object after the call and the result are those of processing the tokens `e, ee, epoch`; on an object of either pattern |
| `HandshakeStates.HandshakeState.TryReadXkMessage2` | `specs/fips/noise-handshake.rs:856-872` | on refusal every field is as it was |
| `HandshakeStates.HandshakeState.WriteIkMessage1` | `specs/fips/noise-handshake.rs:391-450` | the object after the call and the result are those of processing the tokens `e, es, s, ss, epoch`; on an object of either pattern |
| `HandshakeStates.HandshakeState.ReadIkMessage1` | `specs/fips/noise-handshake.rs:455-516` | the object after the call and the result are those of processing the tokens `e, es, s, ss, epoch`; on an object of either pattern |
| `HandshakeStates.HandshakeState.WriteIkMessage2` | `specs/fips/noise-handshake.rs:525-577` | the object after the call and the result are those of processing the tokens `e, ee, se, epoch`, the mix pairing responder static with initiator ephemeral; on an object of either pattern |
| `HandshakeStates.HandshakeState.ReadIkMessage2` | `specs/fips/noise-handshake.rs:582-637` | the object after the call and the result are those of processing the tokens `e, ee, se, epoch`, likewise; on an object of either pattern |
| `HandshakeStates.IkCompletionPanicsIff` | `specs/fips/noise-handshake.rs:988-1013` | an IK or XK object takes the messages of either pattern: a responder that completes with IK message 2 panics on conversion to a session iff it did not know the initiator's static key before |
| `HandshakeStates.MixedPatternsPanic` | `specs/fips/noise-handshake.rs:525-577` | the failing run: a responder reads the honest XK message 1, writes IK message 2 without an error, and panics |
| `HandshakeStates.WhoTellsTheStatic` | `specs/fips/noise-handshake.rs:695-732` | IK message 1 and XK message 3 tell the responder that key, XK message 1 does not |
| `SessionSafety.ForgedAcksAbsorbed` | `specs/fips-next/session-handlers.rs:1005-1117` | any sequence of acks that fail to authenticate, fail their negotiation payload or present another x-only key leaves an initiating entry unchanged, so a later genuine ack has exactly the effect it would have had without them |
| `SessionSafety.RefusedAckAbsorbed` | `specs/fips-next/session-handlers.rs:1005-1102` | one refused ack: the entry, handshake included, is put back exactly and nothing is sent |
| `SessionSafety.EstablishedStep` | `specs/fips-next/session-handlers.rs:649-799` | one setup, ack, message 3, data frame, rekey timer or dial: an established entry stays established with the same remote key; its session changes only by promoting a pending session that opened the frame; a pending session is replaced only by a message 3 of the matching static key; an initiator rekey and a pending session never coexist |
| `SessionSafety.EstablishedSurvives` | `specs/fips-next/session-handlers.rs:300-387` | the same for every event of every sequence, pending session included; so the session is the original one, up to its replay window, unless some frame was accepted by a then-pending session |
| `SessionSafety.EstablishmentBindsKey` | `specs/fips-next/session-handlers.rs:1103-1117` | an entry becomes established only by an ack from the x-only key that was dialled or by a message 3 whose static key owns the source address |
| `SessionSafety.SessionsBelongToTheAddress` | `specs/fips-next/session-handlers.rs:1413-1423` | from no entry, over every run in which only owners of the address are dialled, an established entry names the key that owns the address |
| `SessionSafety.BoundStep` | `specs/fips-next/session-handlers.rs:920-995` | one event keeps the running and the pending session of an established entry with the key it names if and only if it is not an ack that completes a rekey of ours with another key |
| `SessionSafety.SessionKeysOwnTheAddress` | `specs/fips-next/session-handlers.rs:1307-1317` | over every such run without an ack of that kind, the static keys of the running and of the pending session own the address |
| `SessionSafety.BoundExactly` | `specs/fips-next/session-handlers.rs:920-995` | over every such run the running and the pending session are at each moment with the key the entry names, if and only if no ack of that kind arrived |
| `SessionSafety.ForeignRekeyHappens` | `specs/fips-next/session-handlers.rs:920-995` | the failing input: a rekey we arm, answered by a node with another key |
| `SessionSafety.NeverTakenTwice` | `specs/fips-next/session-handlers.rs:300-333` | over every sequence of events that leaves a session running, a frame it has taken is refused by it from then on |
| `SessionSafety.TakenOnce` | `specs/fips-next/session-handlers.rs:307-333` | the slot that takes a frame keeps its session, the pending one by running it, and refuses the frame from then on |
| `SessionSafety.FrameEffects` | `specs/fips-next/session-handlers.rs:334-387` | what a frame changes besides: nothing if every slot refuses it; current ends the retransmission of message 3 unless a session is pending; pending cuts over; previous restarts the drain |
| `SessionSafety.DialledIff` | `specs/fips-next/session-handlers.rs:2385-2443` | a session is dialled iff the address has none running and none dialled and the setup can be sent, and then from message 1; a half-open entry gives way |
| `SessionSafety.SessionNegotiation` | `specs/fips-next/session-handlers.rs:828-829` | the payload offers version 0 alone and no features, to the reference decoder |
| `Rekeys.HonestRekey` | `specs/fips-next/session-handlers.rs:649-1357` | setup, ack and message 3 of a rekey between two running sessions, for all entries, keys and clocks that let it start: both ends hold a pending session, the two are the halves of one fresh handshake, each names the other static key, and nothing else of either entry changes |
| `Rekeys.RekeyCutsOver` | `specs/fips-next/session-handlers.rs:334-387` | then one frame each way, with the K-bit flipped, moves both ends over: they run the two halves, the old sessions drain, nothing is pending and the K-bits are equal again |
| `Rekeys.FrameCutsOver` | `specs/fips-next/session-handlers.rs:334-371` | a frame of the other half of a pending session, under any counter, promotes it, flips the K-bit and is not taken again |
| `Rekeys.RekeyRace` | `specs/fips-next/session-handlers.rs:649-735` | two rekeys started at the same moment: the smaller address ignores the other setup, the larger answers and drops its own, and the rekey completes |
| `Rekeys.SetupAnsweredIff` | `specs/fips-next/session-handlers.rs:649-799` | a setup for a running session is answered iff it is well sized, let through and sendable, a rekey of our own does not outrank it, and no rekey completed within the idle timeout is pending; it arms a responder handshake and touches no session |
| `Rekeys.ArmedIff` | `specs/fips-next/session-handlers.rs:907-920` | our own rekey starts from message 1, iff a session runs, none is armed and none is pending; what is armed is what the ack arm completes |
| `Rekeys.RekeyAckIff` | `specs/fips-next/session-handlers.rs:920-995` | the ack of our rekey: completed and sent, its session is pending and message 3 kept; otherwise the rekey is given up; the running session stays |
| `Rekeys.RekeyMsg3Iff` | `specs/fips-next/session-handlers.rs:1234-1357` | message 3 of a rekey we answered: a session with the x-only key of the entry becomes pending with its time, anything else only drops the handshake |
| `Rekeys.Ignored` | `specs/fips-next/session-handlers.rs:878-1240` | a running session ignores an ack without a rekey of its own, a message 3 without one it answered, and either if too short |
| `Simultaneous.Converges` | `specs/fips-next/session-handlers.rs:618-648` | two nodes dialling each other, under every reordering, duplication, loss and local send failure: at every moment neither entry is lost, only the larger address has answered as responder, and whenever both are established their sessions are the two halves of one handshake between the right keys, if and only if no ack reached the still dialling smaller node while it could not send its message 3 |
| `Simultaneous.CanAlwaysFinish` | `specs/fips-next/session-handlers.rs:997-1179` | a run can be continued, by messages already sent, until both ends are established, under exactly the same condition |
| `Simultaneous.BothWait` | `specs/fips-next/session-handlers.rs:1150-1153` | the failing input: setup, unsendable ack, old setup leave both ends waiting for a message 3 |
| `Simultaneous.PlayInvariant` | `specs/fips-next/session-handlers.rs:802-873` | in every state reached without such an ack both ends are at a point of one and the same planned exchange |
| `Simultaneous.AnswerAgrees` | `specs/fips-next/session-handlers.rs:802-873` | the answer to an honest setup exists and keeps responder and initiator in step |
| `Simultaneous.AckAgrees` | `specs/fips-next/session-handlers.rs:1103-1179` | an honest ack from the dialled key is accepted, whatever its parity |
| `Simultaneous.Msg3Agrees` | `specs/fips-next/session-handlers.rs:1359-1457` | an honest message 3 from the owner of the address completes the responder with the matching half |
| `SessionTables.TableBounded` | `specs/fips-next/session-handlers.rs:2337-2383` | with a nonzero cap, over every run of the handlers and dials the table never exceeds the cap |
| `SessionTables.HalfOpenGrowth` | `specs/fips-next/session-handlers.rs:593-595` | the half-open count grows only by a setup and by one; for a fresh address it stays within max(1, cap/2); for a known one we were dialling it ourselves and lost the tie-break |
| `SessionTables.ShareKeptIff` | `specs/fips-next/session-handlers.rs:618-634` | a table within its half-open share stays within it if and only if the input is not, with the share used up, a well-sized setup, let through and answerable, from an address we dial and do not outrank |
| `SessionTables.AnswerableIffValid` | `specs/fips-next/session-handlers.rs:802-873` | a setup can be answered exactly when it is a valid public key |
| `SessionTables.AdmitsIff` | `specs/fips-next/session-handlers.rs:2337-2383` | a new address is admitted iff the table is below its cap and fewer than max(1, cap/2) entries are half-open; counting them only above that share changes nothing |
| `SessionTables.ShareBroken` | `specs/fips-next/session-handlers.rs:2337-2383` | the failing run: with room for two, dial one address, answer a second, give way to the first |
| `SessionTables.SessionTable.CountHalfOpen` | `specs/fips-next/session-handlers.rs:2362-2369` | counts exactly the entries awaiting message 3 |
| `SessionTables.SessionTable.AdmitNewSession` | `specs/fips-next/session-handlers.rs:2337-2383` | admits exactly known addresses, an uncapped table, or a table below the cap whose half-open share is not used up |
| `SessionTables.SessionTable.HandleSessionSetup` | `specs/fips-next/session-handlers.rs:548-873` | the table and the datagram sent are those of the setup transition: every other address is untouched, a dropped setup changes nothing |
| `SessionTables.SessionTable.ArmResponderRekey` | `specs/fips-next/session-handlers.rs:649-799` | an established entry at most gets a responder handshake armed beside its session |
| `SessionTables.SessionTable.HandleSessionAck` | `specs/fips-next/session-handlers.rs:878-1179` | removal, update and re-insertion of the entry amount to the ack transition; an entry is lost only after an accepted ack that cannot be completed or sent |
| `SessionTables.SessionTable.FinishAck` | `specs/fips-next/session-handlers.rs:997-1171` | the initiating arm, with its two rollbacks, amounts to accept-or-restore |
| `SessionTables.SessionTable.HandleSessionMsg3` | `specs/fips-next/session-handlers.rs:1186-1457` | the table after a message 3: a failed rekey keeps the session, a failed first message 3 drops the entry |
| `SessionTables.SessionTable.FinishRekeyMsg3` | `specs/fips-next/session-handlers.rs:1234-1357` | the rekey arm: a message 3 of the matching static key leaves its session pending, any other only drops the handshake |
| `SessionTables.SessionTable.FinishMsg3` | `specs/fips-next/session-handlers.rs:1359-1450` | the first message 3: established with the authenticated key that owns the source address, or no entry |
| `SessionTables.SessionTable.HandleEncryptedSessionMsg` | `specs/fips-next/session-handlers.rs:270-387` | the table after a data frame: the accepting slot marks the counter in its replay window, the pending slot is promoted, the previous slot has its drain restarted, a frame no slot accepts changes nothing |
| `Sessions.TrySlots` | `specs/fips-next/session-handlers.rs:294-333` | which slot takes a frame: a slot accepts it inside its replay window and authentic; current goes first unless the K-bit differs and pending accepts too, previous is last, none only if none accepts |
| `SessionTables.SessionTable.InitiateSession` | `specs/fips-next/session-handlers.rs:2385-2443` | a running or dialling session is left alone; otherwise an initiating entry and its setup |
| `Links.OverlappingEpochs` | `specs/fips-next/peer-active.rs:1174-1288` | in every run of agree, install, cut over, receive, abandon and drain steps where a rekey starts after the last one is over and a drain ends after the peer moved: the ends are at most one cutover apart, K-bits are equal exactly when generations are, and whatever an end seals under its current session opens to the same plaintext at a peer that installed that generation, is addressed to the index under which that peer holds it, and is taken by its trial decryption unless the replay window rules the counter out or it has no inner header |
| `Links.AlignedStep` | `specs/fips-next/peer-active.rs:1197-1308` | one step keeps which session and which pair of indices each slot holds, generation by generation |
| `Links.ReceivedHolds` | `crates/microfips-protocol/src/node.rs:1411-1510` | so does a received frame, whoever sealed it: it may promote the pending session, and one that opens to less than an inner header only leaves its mark |
| `Links.TrialTakes` | `crates/microfips-protocol/src/node.rs:1411-1455` | slot after slot, each marking what it opens: the frame is taken by the slot the K-bit order prefers among those that open it to a message with an inner header, and by none exactly if there is none |
| `Links.AttemptIff` | `crates/microfips-protocol/src/node.rs:2301-2384` | a session takes a frame iff it is inside the window, opens, and opens to at least five bytes; whatever opens is closed to a second arrival, taken or not; anything else changes nothing |
| `Links.TakenOnce` | `crates/microfips-protocol/src/node.rs:1411-1510` | the slot that takes a frame keeps its session and refuses the frame from then on; pending does so by cutting over to its own index, previous restarts the drain, nothing else moves the K-bit or the drain clock |
| `Epochs.ConservesIffOrderly` | `specs/fips-next/peer-active.rs:1174-1326` | one operation loses or duplicates no session index if and only if it comes in order: arm with none armed, install with none armed or pending, complete with none pending, cut over when not draining |
| `Epochs.IndexConservation` | `specs/fips-next/peer-active.rs:1284-1326` | over every orderly run each index is in slots or has been returned for freeing exactly as often as it was handed out, and a drain is on exactly while the previous slot is occupied |
| `Epochs.OneSlotPerIndex` | `specs/fips-next/peer-active.rs:1174-1326` | if no index is handed out while still held, no index is ever in two slots |
| `Epochs.InstallThenPromote` | `specs/fips-next/peer-active.rs:1174-1228` | after installing a rekey and cutting over, the running session and its two indices are exactly the installed ones, the old session drains under the index it was received under, nothing is pending and the K-bit has flipped |
| `Epochs.OtherOps` | `specs/fips-next/peer-active.rs:620-632` | arming sets only the armed index; completing leaves the session pending under it; replacing changes exactly the current session and its two indices |
| `Epochs.PeerSendState.constructor` | `specs/fips-next/peer-active.rs:396-425` | one current session, everything else empty, K-bit clear |
| `Epochs.PeerSendState.ReplaceSession` | `specs/fips-next/peer-active.rs:620-632` | the current slot is replaced and its index returned |
| `Epochs.PeerSendState.SetRekeyState` | `specs/fips-next/peer-active.rs:1313-1326` | only the armed index and flag change |
| `Epochs.PeerSendState.SetPendingSession` | `specs/fips-next/peer-active.rs:1174-1190` | the pending slot is filled and the armed index forgotten |
| `Epochs.PeerSendState.CutoverToNewSession` | `specs/fips-next/peer-active.rs:1197-1228` | pending to current with both its indices, current to previous with its own, K-bit flipped, drain started; nothing without a pending session; returns the demoted index |
| `Epochs.PeerSendState.HandlePeerKbitFlip` | `specs/fips-next/peer-active.rs:1234-1265` | the same promotion on the peer's flip |
| `Epochs.PeerSendState.IsDraining` | `specs/fips-next/peer-active.rs:1276-1278` | true exactly when the previous slot is occupied |
| `Epochs.PeerSendState.CompleteDrain` | `specs/fips-next/peer-active.rs:1284-1288` | the previous slot is emptied and its index returned |
| `Epochs.AbandonKeepsPending` | `specs/fips-next/peer-active.rs:1290-1308` | abandoning leaves a pending session pending exactly when a rekey is armed beside it |
| `Epochs.PeerSendState.AbandonRekey` | `specs/fips-next/peer-active.rs:1295-1308` | returns the armed index and keeps the pending session, or, with none armed, empties the pending slot and returns its index |
| `Replay.CheckMeansUnseen` | `crates/fips-noise/src/replay.rs:33-53` | after any run, `check` admits a counter iff it is not `u64::MAX` and is above the highest, or less than 2048 below it and not seen |
| `Replay.NeverTwice` | `crates/fips-noise/src/replay.rs:33-72` | no counter is accepted twice and none is `u64::MAX` |
| `Replay.ClosedStaysClosed` | `crates/fips-noise/src/replay.rs:33-72` | accepting a counter closes it and opens none that was closed |
| `Replay.RunTracks` | `crates/fips-noise/src/replay.rs:56-72` | the marks are exactly the seen counters of the last 2048 |
| `Replay.ReplayWindow.constructor` | `crates/fips-noise/src/replay.rs:23-30` | nothing marked |
| `Replay.ReplayWindow.Check` | `crates/fips-noise/src/replay.rs:33-53` | the bit test is the set test of the abstract window |
| `Replay.ReplayWindow.Accept` | `crates/fips-noise/src/replay.rs:56-72` | the bitmap becomes the abstract window with the counter added and what left the window forgotten |
| `Replay.ReplayWindow.Reset` | `crates/fips-noise/src/replay.rs:80-83` | back to the empty window |
| `Replay.ReplayWindow.ShiftBitmap` | `crates/fips-noise/src/replay.rs:85-111` | the in-place reverse word move and carry pass are one 2048-bit left shift |
| `Replay.ReplayWindow.MoveWords` | `crates/fips-noise/src/replay.rs:94-101` | each word is the one the given number of words below it, zeros below |
| `Replay.ReplayWindow.LiftWords` | `crates/fips-noise/src/replay.rs:94-97` | the reverse loop moves every word up in place |
| `Replay.ReplayWindow.CarryBits` | `crates/fips-noise/src/replay.rs:103-110` | each word takes its own bits shifted up and the carry of the word below |
| `Channel.SenderAndWindowCompose` | `specs/fips/noise-mod.rs:346-364` | of everything sealed under one key, under any loss, reordering, duplication and injection of packets that do not open, each packet is delivered at most once, as the message it was sealed from, and on its first arrival if less than 2048 behind the highest delivered |
| `Channel.CountersIncrease` | `specs/fips/noise-mod.rs:400-407` | counters are strictly increasing without gaps and never `u64::MAX` |
| `Channel.DeliveredAtMostOnce` | `crates/microfips-protocol/src/node.rs:2301-2366` | whatever packets arrive, forged ones included, no counter is delivered twice |
| `Channel.DeliveredOnFirstArrival` | `crates/microfips-protocol/src/node.rs:2301-2366` | a sealed packet not too far behind is delivered on its first arrival |
| `Channel.DecryptEstablished` | `crates/microfips-protocol/src/node.rs:2301-2384` | check, open, mark, then strip the inner header: a packet that does not open leaves the window alone, one too short inside is lost but stays marked |
| `Channel.InnerRoundTrip` | `crates/fips-fmp/src/lib.rs:330-358` | the inner header comes off as it was put on and is missing exactly from what is shorter than five bytes |
| `Channel.InnerLayout` | `crates/fips-fmp/src/lib.rs:330-345` | bytes 0 to 3 are the timestamp, least significant first, byte 4 the type |
| `Channel.Cipher.InitializeKey` | `specs/fips/noise-mod.rs:261-267` | keyed, counter zero |
| `Channel.Cipher.AdvanceNonce` | `specs/fips/noise-mod.rs:400-407` | hands out the counter and moves past it; refuses at `u64::MAX` |
| `Channel.Cipher.EncryptWithAad` | `specs/fips/noise-mod.rs:346-364` | one counter per sealed message, none for a refused one |
| `Channel.Cipher.Decrypt` | `specs/fips/noise-mod.rs:300-315` | one counter per attempted opening |
| `Bech32.DecodeEncode` | `crates/fips-identity/src/bech32.rs:43-142` | decoding an encoded 32-byte key returns the key |
| `Bech32.EncodeDecode` | `crates/fips-identity/src/bech32.rs:43-93` | whatever is accepted is, lowercased, the encoding of what is returned: padding and checksum are forced |
| `Bech32.AcceptsExactly` | `crates/fips-identity/src/bech32.rs:43-65` | a string decodes to a key if and only if it has the right length, a lower-case prefix and lowers to the encoding of the key |
| `Bech32.MixedCaseAccepted` | `crates/fips-identity/src/bech32.rs:59-65` | an accepted string in mixed case: any data letter of an encoding may be upper case |
| `Bech32.BurstDetected` | `crates/fips-identity/src/bech32.rs:50-68` | changing any nonempty set of data characters within six consecutive positions of an accepted string makes it rejected |
| `Bech32.TailForced` | `crates/fips-identity/src/bech32.rs:118-132` | for any data exactly one six-value tail brings the checksum to 1 |
| `Field.PolyIsRemainder` | `crates/fips-identity/src/bech32.rs:23-32` | the 30-bit checksum of any values is, symbol by symbol, the remainder of their polynomial over GF(32) modulo the BIP-173 generator x^6 + 29x^5 + 22x^4 + 20x^3 + 21x^2 + 29x + 18 |
| `Field.StepIsShift` | `crates/fips-identity/src/bech32.rs:23-32` | one step is multiplication by x, plus the value, reduced modulo that generator |
| `Field.GeneratorsPacked` | `crates/fips-identity/src/bech32.rs:8-14` | the five constants are the generator times 1, a, a^2, a^3 and a^4 in GF(32) with a^5 = a^3 + 1 |
| `Bech32.ChecksumIsBip173` | `crates/fips-identity/src/bech32.rs:50-68` | a string passes the check iff the polynomial of its expanded prefix and values is 1 modulo the generator |
| `Bech32.NpubExpanded` | `crates/fips-identity/src/bech32.rs:50-57` | the prefix expands to 3, 3, 3, 3, 0, 14, 16, 21, 2 |
| `Bech32.CharactersAreBip173` | `crates/fips-identity/src/bech32.rs:7-7` | the 32 characters, in order, are those of BIP-173 |
| `Bech32.KeyBitsInOrder` | `crates/fips-identity/src/bech32.rs:98-116` | bit i of the 52 values, counted from the front, is bit i of the key, and the last four are zero |
| `Bech32.EncodedByTheBook` | `crates/fips-identity/src/bech32.rs:98-142` | the encoding of a key is npub1, the characters of 52 values that spell the key bit for bit, and six whose polynomial with all before is 1 modulo the generator |
| `Checksum.StepLinear` | `crates/fips-identity/src/bech32.rs:23-32` | the checksum step is linear over exclusive or |
| `Checksum.StepKernel` | `crates/fips-identity/src/bech32.rs:23-32` | the step is injective on 30-bit states |
| `Checksum.BurstChangesChecksum` | `crates/fips-identity/src/bech32.rs:23-32` | two strings that differ only within six consecutive values have different checksums |
| `Bech32.PolymodStep` | `crates/fips-identity/src/bech32.rs:23-32` | the shift-and-mask code computes the step that is multiplication by x modulo the generator |
| `Bech32.ExpandHrp` | `crates/fips-identity/src/bech32.rs:50-57` | the checksum state after the expanded prefix |
| `Bech32.ReadData` | `crates/fips-identity/src/bech32.rs:59-65` | the values of the data characters, in either case, and the checksum state after them |
| `Regroup.FiveToEight` | `crates/fips-identity/src/bech32.rs:70-93` | the accumulator loop gives 32 octets exactly when the 5-bit values make 32 octets with zero bits left over |
| `Regroup.FiveToEightMeaning` | `crates/fips-identity/src/bech32.rs:70-93` | those octets spell the number of the 5-bit values without its last four bits |
| `Regroup.EightToFive` | `crates/fips-identity/src/bech32.rs:98-116` | the loop gives the 5-bit digits of the key times sixteen |
| `Bech32.NpubToXOnly` | `crates/fips-identity/src/bech32.rs:43-93` | the decoder of the round-trip and by-the-book lemmas: accepts exactly the encodings, data letters in either case |
| `Bech32.XOnlyToNpub` | `crates/fips-identity/src/bech32.rs:98-142` | the encoder of the round-trip and by-the-book lemmas |
| `Probes.RetryFairness` | `specs/fips/ble-mod.rs:1301-1307` | an address that stays in the book and due is returned within its position plus one ticks, so within 32, whatever happens to other addresses in between |
| `Probes.BookBounded` | `specs/fips/ble-mod.rs:1239-1307` | after every sequence of operations at most 32 entries and no address twice |
| `Probes.BackoffBound` | `specs/fips/ble-mod.rs:1405-1480` | over every run of the probe loop, however often an address is sighted, its (k+1)-th failure comes at least cooldown*(2^k - 1) after its first for k up to 6, and cooldown*(63 + 32*(k - 6)) beyond |
| `Probes.RetriedAfterBackoff` | `specs/fips/ble-mod.rs:1362-1616` | over every run of the probe loop after a failure at time t with k earlier ones, while the address stays in the book: until it is taken up it is due exactly from t + cooldown*2^min(k, 5) on, and of the retry ticks from then on one of the first 32 takes it up unless a sighting has |
| `Probes.FailedTurn` | `specs/fips/ble-mod.rs:1405-1480` | the turn that fails an address counts one failure more, saturating, and holds it for exactly cooldown*2^min(k, 5) after the failure |
| `Probes.DueAfterFailure` | `specs/fips/ble-mod.rs:1278-1287` | after a failure with k earlier ones the address is due at a time iff that is at least cooldown*2^min(k, 5) later |
| `Probes.DueAfterAttempt` | `specs/fips/ble-mod.rs:1271-1275` | after a dial it is due iff one cooldown has passed, and no failure is forgotten |
| `Probes.SightingEvicts` | `specs/fips/ble-mod.rs:1239-1258` | a new address is due at once and last; another loses its entry only if the book holds 32, and then one that no other exceeds in failures or, as often failed, in lateness |
| `Probes.TurnMovesForward` | `specs/fips/ble-mod.rs:1362-1616` | a turn that does not take an address up leaves its entry alone and never moves it back, and a retry tick at which it is due moves it forward |
| `Probes.DroppedIff` | `specs/fips/ble-mod.rs:1362-1616` | a turn about an address drops its entry iff the pool has it, or it is due and belongs to a connected node or its dial concludes |
| `Probes.PlaceStep` | `specs/fips/ble-mod.rs:1239-1307` | no operation on other addresses moves an entry back, and a tick that returns another address moves a due one forward |
| `Probes.Worst` | `specs/fips/ble-mod.rs:1243-1251` | the evicted entry has the most failures, then the latest next attempt, and is the last of equals |
| `Probes.PendingProbes.Position` | `specs/fips/ble-mod.rs:1228-1230` | the first entry of the address, if any |
| `Probes.PendingProbes.MostFailed` | `specs/fips/ble-mod.rs:1243-1251` | the loop finds that worst entry |
| `Probes.PendingProbes.Observe` | `specs/fips/ble-mod.rs:1239-1258` | a known address is left alone; a new one is due at once and in a full book takes the place of the worst entry |
| `Probes.PendingProbes.MayDial` | `specs/fips/ble-mod.rs:1262-1267` | due unless an entry says later |
| `Probes.PendingProbes.MarkAttempt` | `specs/fips/ble-mod.rs:1271-1275` | only the next attempt of that entry changes |
| `Probes.PendingProbes.RecordFailure` | `specs/fips/ble-mod.rs:1278-1287` | the entry becomes the failed one, due again as `DueAfterFailure` says; returns the new count, or 0 for an unknown address |
| `Probes.PendingProbes.Retain` | `specs/fips/ble-mod.rs:1290-1297` | exactly the entries of the given addresses are dropped, order kept |
| `Probes.PendingProbes.TakeNextDue` | `specs/fips/ble-mod.rs:1301-1307` | the first due entry, moved to the back |
| `Probes.PendingProbes.ProbeTurn` | `specs/fips/ble-mod.rs:1362-1616` | one turn of the scan and probe loop over the book |
| `Negotiation.ScannerRefinesDecoder` | `crates/fips-fmp/src/negotiation.rs:218-248` | on every byte string the reference decoder accepts, the scanner returns what the first matching decoded entry gives, for any field and for the rekey marker |
| `Negotiation.AbsenceMeansWellFormed` | `crates/fips-fmp/src/negotiation.rs:214-239` | "no such field" is returned exactly for a fully well-formed region without the field |
| `Negotiation.DecodeEncode` | `specs/fips-next/fmp-wire.rs:338-409` | decoding inverts encoding if and only if the format is 0, min <= max <= 15 and every value is under 65536 bytes |
| `Negotiation.EncodeDecode` | `specs/fips-next/fmp-wire.rs:356-409` | every accepted byte string is the encoding of what it decodes to |
| `Negotiation.HeaderRoundTrip` | `crates/fips-fmp/src/negotiation.rs:144-167` | the fixed header is recovered exactly for format 0 and ordered 4-bit versions |
| `Negotiation.AgreedVersionIsGreatest` | `crates/fips-fmp/src/negotiation.rs:170-176` | agreement is symmetric, gives the greatest common version and fails iff the ranges are disjoint |
| `Negotiation.LeafRoundTrip` | `crates/fips-fmp/src/negotiation.rs:187-211` | what the leaf emits is read back by the header parser, the scanner and the reference decoder |
| `Negotiation.LeafLayout` | `crates/fips-fmp/src/negotiation.rs:187-211` | the bytes themselves: format 0, versions in the nibbles of byte 1, eight bytes of features, then for a rekey 1, 0, 4, 0 and the index, least significant first |
| `Negotiation.DecodeErrors` | `specs/fips-next/fmp-wire.rs:356-409` | which error is reported: too short under 10 bytes, else a bad format, else a bad version range, else a truncated entry, iff the rest is the encoding of no entries |
| `Negotiation.MarkerErrors` | `crates/fips-fmp/src/negotiation.rs:242-248` | the rekey marker is the first field 1: an error iff it is not four bytes long, absent iff the field is, else their value, least significant first |
| `Negotiation.FindField` | `crates/fips-fmp/src/negotiation.rs:218-239` | the shrinking-slice loop is the scanner of those lemmas |
| `Negotiation.DecodeRegion` | `specs/fips-next/fmp-wire.rs:375-400` | the offset loop decodes the entry region |
| `Negotiation.DecodePayload` | `specs/fips-next/fmp-wire.rs:356-409` | the reference decoder of those lemmas |
| `Negotiation.EncodePayload` | `specs/fips-next/fmp-wire.rs:338-353` | the reference encoder of those lemmas |
| `Negotiation.EncodeLeaf` | `crates/fips-fmp/src/negotiation.rs:187-211` | writes the reference encoding into the buffer and nothing else, or nothing at all if it does not fit |
| `Deframer.ChunkingIndependent` | `tools/serial_udp_bridge.py:223-235` | however a byte stream is cut into chunks, the frames emitted and the residue are those of the whole |
| `Deframer.StreamRoundTrip` | `tools/serial_udp_bridge.py:294-295` | a written stream is read back as exactly its datagrams with nothing left if and only if each has 1 to 1500 bytes |
| `Deframer.ParseSplit` | `tools/serial_udp_bridge.py:250-258` | parsing a prefix, then its residue with the rest, is parsing the whole, skips of bad lengths included |
| `Deframer.ParseStep` | `tools/serial_udp_bridge.py:223-235` | two bytes and what follows: a length of 0 or above 1500 is skipped alone, an incomplete frame waits, a complete one is taken whole |
| `Deframer.PrefixedBytes` | `tools/serial_udp_bridge.py:294-295` | the length is written least significant byte first |
| `Deframer.SerialBridge.ParseFrames` | `tools/serial_udp_bridge.py:223-235` | the loop over the buffer is that parser |
| `Deframer.SerialBridge.OnSerial` | `tools/serial_udp_bridge.py:250-258` | append, then parse |
| `FmpFrames.UniquelyDecodable` | `crates/fips-fmp/src/lib.rs:1253-1297` | a concatenation of frames splits back into exactly those frames by the per-phase length rule if and only if no length field overflows, and each frame parses to what it was built from |
| `FmpFrames.FrameLenExact` | `crates/fips-fmp/src/lib.rs:1253-1297` | the prefix gives the length of a frame if and only if its length field did not wrap |
| `FmpFrames.ParseBack` | `crates/fips-fmp/src/lib.rs:583-649` | parsing returns the indices, counter and payload a frame was built from |
| `FmpFrames.DataOpens` | `crates/fips-fmp/src/lib.rs:385-419` | the rest of an established frame opens under its first 16 bytes to what was sealed |
| `FmpFrames.PrefixBack` | `crates/fips-fmp/src/lib.rs:231-249` | the prefix parses back to phase, flags and length modulo 65536 |
| `FmpFrames.PrefixLayout` | `crates/fips-fmp/src/lib.rs:231-234` | byte 0 is version 1 and the phase, byte 1 the flags, bytes 2 and 3 the length, least significant first |
| `FmpFrames.HandshakeLayout` | `crates/fips-fmp/src/lib.rs:252-307` | sender index in bytes 4 to 7, receiver index of messages 2 and 3 in bytes 8 to 11, least significant first, phases 1 to 3, the noise message behind them |
| `FmpFrames.DataLayout` | `crates/fips-fmp/src/lib.rs:310-328` | phase 0, the length without the tag, receiver index in bytes 4 to 7, counter in bytes 8 to 15, and the rest sealed under those 16 bytes |
| `FmpFrames.ParsesIff` | `crates/fips-fmp/src/lib.rs:583-649` | a byte string is a message iff its version is 1, its phase 0 to 3 and its header complete; each index is the value of the bytes it is written to |
| `FmpFrames.BuildMsg1` | `crates/fips-fmp/src/lib.rs:252-264` | writes exactly the frame into the buffer, or nothing if it does not fit |
| `FmpFrames.BuildMsg2` | `crates/fips-fmp/src/lib.rs:267-286` | likewise |
| `FmpFrames.BuildMsg3` | `crates/fips-fmp/src/lib.rs:288-307` | likewise |
| `FmpFrames.EncryptAndAssemble` | `crates/fips-fmp/src/lib.rs:385-419` | writes header and sealed payload into the buffer, or nothing if they do not fit |

## Left out

- The session entry itself (its file is not part of this model): the setters and the stale-pending rule are taken from how the handlers use them and from their comments, and its trial decryption from that of the link layer (crates/microfips-protocol/src/node.rs:1411-1455), except that the session layer looks at the inner header only after the slot has reacted.
- Handshakes inside the session table are values that are taken out, changed and put back, as the moves of the source amount to; aliasing is not modelled.
- Timers of the session layer (our own cutover, idle sweeps, retransmission of setups and message 3) beyond arming a rekey and completing one.
- Retransmission, jitter and metric fields of the peer, and its responder-side rekey handshake slot; they do not touch the epoch slots.
- Coordinates, routing signals, metric reports, path MTU, TUN and ICMP parts of the session handlers.
- Key erasure, randomness, and the cryptographic strength of the primitives.
- Overflow of clock and duration arithmetic in the retry book.
- The BLE pool, scanner, accept loop and mDNS: asynchronous I/O.
- fips-decrypt, the fixed-layout FSP codecs, link message bodies, hex, allow-lists, configuration, firmware and scripts: fixed layouts, parsing of local settings and device I/O, outside the protocol state machines.
