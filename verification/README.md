# Licensify: verified model

A Dafny model of the parts of Licensify that must agree with each other, and proofs that they do. Licensify is
a machine-bound licence system: a Go server keeps licences, registers machines and issues signed binary tokens; a Rust client
verifies them offline, keeps one in an encrypted cache file, and guards against clock rollback with a marker file.

`dafny verify dfyconfig.toml` checks everything.

## How the model is laid out

- `Outcomes`, `Bytes`, `Text`, `Encodings`: results, 64-bit arithmetic with wrap-around, big-endian integers, trimming, decimal, hex, base64.
- `Signatures`: Ed25519 as an ideal scheme whose laws are hypotheses, and a signer with a ghost log.
- `Token`: the binary token, printed by the server and parsed and verified by the client. `Seed`: the signing seed from the environment.
- `Entitlements`: the JSON tree the server prints and the client's reading of it. `Cache`: the cache file's framing. `Comparison`: the branch-free comparison.
- `Client`, `ClientRuns`, `ClientCalls`: the client object, what holds over all its runs, and what each call answers and leaves behind.
- `Uuids`: the spellings of a UUID that Postgres reads. `LicenseStore`, `StoreObjects`: the store interface, the in-memory store and the Postgres table, as values and as objects.
- `Server`, `ServerCalls`, `ServerObjects`: the protocol at the granularity of store calls, what each request writes and answers, and the handlers as they are written.
- `Mirror`, `MirrorGaps`: the in-memory store against the table over all runs, and the shortest runs that tell them apart. `EndToEnd`: server run, token and client together.
- `Seats`, `Matching`, `Certificates`, `Handles`: floating seats, hardware matching, certificate chains, the C++ wrapper.

## Main results

- Accepted bytes are canonical although the parser ignores trailing bytes (`Token.AcceptanceIsCanonical`), and exactly when that would fail (`Token.SurplusIsTheWrap`).
- The exact verdict on every server-built token (`Token.BuiltTokenVerdict`), and both codec directions (`Token.ParseExactly`, `Token.CodecInverse`).
- Over all client runs: the marker is the running maximum and the 60 s tolerance never accumulates (`ClientRuns.MarkerIsTheRunningMaximum`, `ClientRuns.ToleranceDoesNotDrift`); status phases and idempotence (`ClientRuns.StatusPhases`).
- Over all server runs and interleavings: every token is earned (`Server.EveryTokenIsEarned`); key resolution is unique and stable on the table always, and in memory exactly as long as no request body changes a key hash (`Server.ReachableKeysAreUnique`, `Server.ResolutionIsStable`, `Server.RunKeepsResolutionIff`, `Server.MemoryKeysStayDistinctIff`).
- Over all runs the two stores give the same replies and hold the same licences and uploads if and only if every request stays out of five cases: an ID in another spelling, a text with a NUL or beyond the database's limits, a negative zero in metadata, an expiry that the column or the server's zone changes for a reader, and a body that changes a key hash (`Mirror.MemoryMirrorsTable`, `Mirror.StepMirrorsIff`). Each has a run that shows it, and every step into one of them shows within two more requests (`MirrorGaps`, `MirrorGaps.PartingShows`). This is said of records as values and leaves `created_at` and `max_activations` out.
- What the server answers over all runs: the bytes of a token reply are one token in order that verifies (`ServerCalls.TokenReplyIsIssued`), a login succeeds exactly after a registration (`ServerCalls.ValidateSucceedsIff`), stored uploads are the last registered (`ServerCalls.UploadsAreTheLastRegistered`), and a request touches no other licence (`ServerCalls.OthersAreUntouched`).
- What the client's answers mean over all runs: a valid check had an untampered binary (`ClientCalls.ValidMeansUntampered`), and a deactivation ends the licence (`ClientCalls.DeactivationEnds`).
- Any chain that may be presented: acceptance means each certificate was signed by the one above it (`Certificates.AcceptedUnderPinnedRoot`, `Certificates.MixedChainIsRejected`).
- The handlers as objects, in any interleaving, are the protocol these theorems are about (`ServerObjects.Api.ServeAll`).
- A valid offline check reaches all the way back to a registration in the server's run (`EndToEnd.ValidMeansLicensed`), and what the server issues can be activated and checked, with the exact condition (`EndToEnd.IssuedTokenActivatesIff`, `EndToEnd.IssuedTokenActivates`).

## Where the code differs from what is said of it

- `server/internal/db/memstore.go` sets out to mirror the table. It does not for an ID in another spelling, which a `uuid` column matches and a Go map does not; for a text with a NUL, which the table refuses; for a negative zero in metadata, which a `jsonb` column makes zero; for an expiry with a fraction of a microsecond, which a `timestamptz` column drops, or beyond its range, which it refuses or the driver's 64-bit count turns into another time, or whose year is printable in the zone it was written in and not in the server's (`Mirror.StepMirrorsIff`, `MirrorGaps`).
- `server/internal/license/model.go:36` keeps the key hash out of JSON. The framework also binds XML bodies, by Go field names (`server/internal/api/server.go:139`), and the in-memory store writes whole records, so there an administrator's XML body can change a licence's key hash or give two licences the same one (`Server.StepKeepsResolutionIff`, `Server.StepKeepsDistinctIff`, `MirrorGaps.KeyTellsThemApart`). The table never writes a key hash again.
- An expiry outside the years 0 to 9999 can be stored, and then every reply that would show it is an internal error (`Server.Show`).
- The rollback bound survives anything but losing the marker file: a marker write that fails after truncating the file loses it (`ClientRuns.DriftAfterTornWrite`).
- `docs/architecture.md:17` says a strictly older token is rejected. The code tolerates 60 s; the model follows the code, and `ClientRuns.ToleranceDoesNotDrift` says what remains true. Online activation does not compare with the marker at all; `ClientRuns.ActivationThenCheck` says what the next check then does.
- The chain verifier keeps no certificate to its position: an authority's root is accepted as its own intermediate and leaf (`Certificates.RootAloneIsAChain`).
- An activation that stores its token and then cannot write the marker reports an error and honours nothing, and yet leaves a licence that checks find (`ClientCalls.UnhonouredActivationFillsCache`).
- The length field wraps at 2^32 (`Token.SurplusIsTheWrap`), and the skew arithmetic wraps at the ends of the 64-bit range (`Token.OverflowingClockRejects`, `ClientRuns.UnderflowingMarkerRejects`).

## Assumptions

Stated as hypotheses of the theorems that use them, never globally:

- Signing is correct: a signature has 64 bytes and verifies (`Signatures.Sound`). A presented signature is no forgery (`Signatures.Genuine`).
- Opening a sealed cache blob undoes sealing and nothing else opens (`Cache.Exact`). Hashes have 32 bytes.
- Fresh licence IDs are canonical UUIDs and nonces have 32 bytes (`Server.WellFormed`). Client and server use the same signature scheme and hash (`EndToEnd.SamePrimitives`); nothing is assumed of how one side's JSON text reads on the other.
- What the columns take is PostgreSQL's: its `uuid` input syntax, its `timestamptz` range at a resolution of a microsecond, no NUL in `text` and `jsonb`, one zero in `jsonb`. The driver (`server/go.mod:7`) sends IDs as text and instants as 64-bit microseconds since 2000, and reads instants in the server's zone. That zone, and which licence types and entitlements the database's limits of size and nesting admit, are parameters (`LicenseStore.Database`).
- Bodies are bound by the framework (`server/go.mod:8`), which decodes JSON by tags and XML by field names; what a body sets is a parameter (`Server.Edit`).
- Clock readings, random draws, network replies, file-write results, nonces, fresh IDs and the host binary's digest are arguments.

## Model

| member | source | states |
|---|---|---|
| `Bytes.I64RoundTrip` | client/src/token.rs:48 | Big-endian two's-complement decoding of an encoded signed 64-bit time gives the time back, negatives included |
| `Bytes.I64FromRoundTrip` | server/internal/token/token.go:99 | Every 8 bytes are the encoding of the time they decode to |
| `Token.MarshalUnsigned` | server/internal/token/token.go:94-105 | The buffer built field by field is the unsigned body, with the length field wrapped to 32 bits |
| `Token.MarshalSigned` | server/internal/token/token.go:107-110 | The body followed by the signature |
| `Token.ParseWithCursor` | client/src/token.rs:36-69 | The moving-cursor decoder never reads out of bounds and computes the parser that `ParseExactly` characterizes |
| `Token.ParseExactly` | client/src/token.rs:36-69 | Parsing succeeds exactly on buffers that start with a printed token within the cap, and returns that token |
| `Token.ParseOfPrinted` | client/src/token.rs:53-67 | Parsing a printed token gives it back, whatever bytes follow |
| `Token.PrintedOfParse` | client/src/token.rs:36-69 | Printing what was parsed gives the leading bytes back |
| `Token.CodecInverse` | server/internal/token/token.go:94-110 | Printer and parser are inverse on buffers without surplus bytes |
| `Token.SurplusIsTheWrap` | client/src/token.rs:82-87 | The bytes an accepted buffer has after its signature number exactly what the 32-bit length field lost; none if and only if the signed entitlements are shorter than 2^32 |
| `Token.BodyDeterminesFields` | server/internal/token/token.go:94-105 | A signed body determines every field but the signature |
| `Token.AcceptanceIsCanonical` | client/src/token.rs:71-97 | If the key signed only printed bodies and the presented signature is no forgery, accepted bytes are one printed token with nothing after it, and parse to the signed fields |
| `Token.Build` | server/internal/token/token.go:71-92 | Builds, signs and prints the draft; logs exactly one signed body; fails, signing nothing, when the ID does not parse or no random nonce is to be had |
| `Token.BuiltTokenVerdict` | client/src/token.rs:71-97 | A built token verifies to its own fields if and only if the entitlements fit the cap, the window did not wrap and the clock is in the skewed window; otherwise Expired after the window and InvalidToken in every other case below 2^32 bytes |
| `Token.LifetimeIsKept` | server/internal/token/token.go:76-83 | Without overflow the expiry is issue plus lifetime, and the window is sane exactly for non-negative lifetimes |
| `Token.UnauthenticIsInvalid` | client/src/token.rs:74-87 | An unknown version, an upside-down window and a bad signature make a token invalid at all times, expired or not |
| `Token.BadKeyIsCryptoError` | client/src/token.rs:83 | A public key that is no key is told apart, for a token of the known version with a sane window |
| `Token.VerdictMeans` | client/src/token.rs:71-97 | An accepted or expired token is authentic and where the answer puts it; there are no other errors than invalid, expired and bad key |
| `Token.OverflowingClockRejects` | client/src/token.rs:90-95 | Where the skew arithmetic wraps, only tokens at the extreme end of the 64-bit range are accepted |
| `Encodings.HexSpellings` | server/internal/token/token.go:47-49 | A text hex-decodes to given bytes exactly when it spells them in hex digits of either case |
| `Encodings.PublishedKeyRoundTrip` | server/internal/token/token.go:56-58 | The client's trimmed decoding of the published key text gives the key back |
| `Encodings.Base64RoundTrip` | server/internal/token/token.go:51 | Base64 decoding undoes encoding for bytes of every length |
| `Encodings.UnevenEndsInPadding` | server/internal/token/token.go:51 | A text that decodes to a length not divisible by three ends in '=' |
| `Seed.Base64SeedIsNotHex` | server/internal/token/token.go:47-52 | No text that base64-decodes to 32 bytes is also hex |
| `Seed.SeedReadings` | server/internal/token/token.go:31-52 | The environment text yields a seed exactly when it is 32 bytes in hex or in base64, and never two ways |
| `Seed.BothSpellingsAreRead` | server/internal/token/token.go:31-52 | Hex and padded base64 of a 32-byte seed, inside any whitespace, both yield it |
| `Seed.BlankIsGenerated` | server/internal/token/token.go:32-36 | A fresh key is generated exactly when the text is all whitespace |
| `Entitlements.MembersAreHeld` | server/internal/license/model.go:21-30 | Every field is printed under its own tag, and absent optional fields under none |
| `Entitlements.HeldMembersAreSeen` | client/src/lib.rs:364-398 | The client's reading depends only on those members, not on their order or on extra ones |
| `Entitlements.EntitlementsSurvive` | client/src/lib.rs:364-398 | Whatever the server prints is read back as it is meant to be seen |
| `Entitlements.TypeSurvives` | client/src/lib.rs:374-380 | The licence type survives exactly when it is one of the five declared ones |
| `Entitlements.ForeignCountsSurviveIff` | client/src/lib.rs:391 | A count from any tree survives the 32-bit cast exactly when it is below 2^32 |
| `Entitlements.EveryViewIsReachable` | server/internal/license/model.go:13-30 | Every client-side value is what some server-side value reads back as |
| `Cache.EncryptToken` | client/src/cache.rs:41-56 | The framed blob, or a crypto error when sealing fails |
| `Cache.FramingInverse` | client/src/cache.rs:62-75 | A blob decrypts to a token exactly when encrypting that token under the blob's nonce produces the blob |
| `Cache.DecryptionErrors` | client/src/cache.rs:62-75 | A blob that is too short or of another version is an invalid token; any other that does not open is a crypto error |
| `Comparison.Round` | client/src/lib.rs:413 | One round of the loop keeps the accumulator zero exactly when it was zero and the two bytes agree |
| `Comparison.CtEq` | client/src/lib.rs:407-416 | The branch-free loop decides equality of byte sequences |
| `Text.PrintI64RoundTrip` | client/src/lib.rs:424-433 | A printed 64-bit integer, inside any whitespace, is read back |
| `Text.UnsignedIsRead` | client/src/lib.rs:424-426 | A decimal number is read unless 64 bits cannot hold it |
| `Text.SignedIsRead` | client/src/lib.rs:424-426 | With a sign likewise; a plus sign makes no difference |
| `Text.ParseI64Shape` | client/src/lib.rs:424-426 | Nothing else than an optional sign and at least one digit is read |
| `Text.TrimmedAwayIff` | client/src/lib.rs:425 | Trimming leaves nothing exactly of what is all whitespace |
| `Client.RaisedMarkerValue` | client/src/lib.rs:428-433 | Writing the marker leaves the maximum of the old value and the new one, as the next read sees it |
| `Client.LicensifyClient.IntegrityCheck` | client/src/lib.rs:452-463 | Passes exactly on a readable binary that has the pinned digest, if one is pinned; otherwise an I/O or a crypto error |
| `Client.LicensifyClient.WriteRollbackMarker` | client/src/lib.rs:428-433 | Raises the marker file, leaves it alone when the write is refused, or leaves a prefix of the new text when the write is torn |
| `Client.LicensifyClient.TryOnlineActivation` | client/src/lib.rs:165-257 | The exchange step by step has the specified outcome: the key learnt and kept, the presented chain verified, the token verified, bound, sealed and stored, the marker raised |
| `Client.LicensifyClient.Activate` | client/src/lib.rs:140-163 | The whole new state and result of an activation, the reported licence ID included |
| `Client.UuidStringIsCanonical` | client/src/lib.rs:470-477 | That ID is the canonical spelling of a UUID, made of the machine ID |
| `Client.UuidStringSpells` | client/src/lib.rs:470-477 | It spells the first 16 bytes of the machine ID |
| `Client.UuidStringsAgreeIff` | client/src/lib.rs:470-477 | Two machines report the same ID exactly when those bytes agree |
| `Client.LicensifyClient.ExamineCache` | client/src/lib.rs:265-295 | The checks before anything is written give the specified finding |
| `Client.LicensifyClient.Check` | client/src/lib.rs:259-309 | The whole new state and status of a check |
| `Client.LicensifyClient.Deactivate` | client/src/lib.rs:322-328 | Clears the licence and whichever files could be removed |
| `Client.LicensifyClient.SetServerKey` | client/src/lib.rs:122-124 | Replaces the server key and nothing else |
| `ClientRuns.EveryEventListRuns` | client/src/lib.rs:95-333 | Every list of events has a run from every state |
| `ClientRuns.MarkerStep` | client/src/lib.rs:428-433 | A step that does not lose the marker raises it to what it honoured and otherwise keeps its value |
| `ClientRuns.MarkerIsTheRunningMaximum` | client/src/lib.rs:428-433 | In any run, until a deactivation removes the marker or a write of it is torn, it is the maximum of its start and everything honoured, under any cache swaps and clock moves |
| `ClientRuns.ValidRespectsMarker` | client/src/lib.rs:290-296 | A valid check honours a token at most 60 s below the marker, even where the difference wraps |
| `ClientRuns.ToleranceDoesNotDrift` | client/src/lib.rs:290-296 | In any run, a valid check's token is at most 60 s older than any token honoured earlier without the marker lost between, so tolerated steps do not add up |
| `ClientRuns.PhasesOfCached` | client/src/lib.rs:259-309 | The status a stored token shows at every time |
| `ClientRuns.StatusPhases` | client/src/lib.rs:259-309 | After a valid check the status is Invalid, then Valid, then Expired with boundaries at issued-60 and expires+60, and no further check changes the state |
| `ClientRuns.UnderflowingMarkerRejects` | client/src/lib.rs:292 | With a marker within 60 s of the smallest 64-bit time, only tokens within 60 s of the largest are ever valid |
| `ClientRuns.OnlyValidChecksChange` | client/src/lib.rs:259-309 | A check that is not valid changes nothing, except the marker when its write is torn |
| `ClientRuns.ActivationPersists` | client/src/lib.rs:210-254 | An activation without error had an acceptable chain or none, and leaves a cache file that decrypts to the issued bytes and a raised marker |
| `ClientRuns.ActivationThenCheck` | client/src/lib.rs:140-309 | After it, a check follows the token's phases and is valid in the window exactly when the token was at most 60 s older than the previous marker |
| `ClientRuns.OfflineActivationKeepsFiles` | client/src/lib.rs:152-159 | An activation that gets no token leaves both files alone, and the key too if it reached none |
| `ClientRuns.OfflineActivationKeepsStatus` | client/src/lib.rs:152-159 | So the next check reports what it would have reported before |
| `ClientRuns.DeactivationForgets` | client/src/lib.rs:322-328 | A deactivation lowers the bound exactly when it removes the marker |
| `ClientRuns.TornWriteForgets` | client/src/lib.rs:428-433 | A marker write torn right after truncation leaves a marker that bounds nothing |
| `ClientRuns.DriftAfterTornWrite` | client/src/lib.rs:290-296 | After one, a check honours any older token in its window, however much older |
| `ClientCalls.TamperedBinaryFails` | client/src/lib.rs:261 | A check on an unreadable binary, or on one with another digest than the pinned one, fails and does nothing |
| `ClientCalls.ValidMeansUntampered` | client/src/lib.rs:259-309 | In every run every valid check had a readable binary with the digest pinned last, if any was |
| `ClientCalls.PinnedDigestIsTheLast` | client/src/lib.rs:128-131 | In every run the pinned digest is the one set last |
| `ClientCalls.ServerKeyIsTheLast` | client/src/lib.rs:122-124 | In every run the server key is the one set or learnt last |
| `ClientCalls.BadClockFails` | client/src/lib.rs:263 | A clock that cannot be read fails the check and nothing is done |
| `ClientCalls.NoCacheIsInvalid` | client/src/lib.rs:265-273 | A missing cache file, or one that does not open here, is an invalid licence |
| `ClientCalls.ExpiredIff` | client/src/lib.rs:275-279 | Expired is said exactly of an authentic token after its window |
| `ClientCalls.OtherMachineIsInvalid` | client/src/lib.rs:284-286 | A token that verifies but is another machine's is an invalid licence |
| `ClientCalls.UnwrittenMarkerFails` | client/src/lib.rs:297 | Where the marker cannot be written a check that would be valid fails with an I/O error and honours nothing |
| `ClientCalls.CheckTouchesLittle` | client/src/lib.rs:259-309 | A check reports one of three statuses and changes at most the marker and the shown entitlements |
| `ClientCalls.ActivationSucceedsIff` | client/src/lib.rs:140-163 | An empty key is refused and changes nothing; any other activates whatever the network does |
| `ClientCalls.OfflineGrant` | client/src/lib.rs:348-359 | Without a token the base feature is granted, perpetual, with seven grace days |
| `ClientCalls.LearntKeyIff` | client/src/lib.rs:176-187 | The served text is learnt exactly when it spells 32 bytes in hex, inside any whitespace |
| `ClientCalls.ExchangeErrors` | client/src/lib.rs:165-187 | Each failure before the token has its error and touches no file; a learnt key is kept |
| `ClientCalls.ChainAndTokenErrors` | client/src/lib.rs:208-242 | So does a chain that is refused, and then a token that is not received |
| `ClientCalls.ChainClockErrors` | client/src/cert.rs:31-36 | The chain is checked at a clock of its own, and one that cannot be read fails it |
| `ClientCalls.UnreadableGrantIsBase` | client/src/lib.rs:256 | An honoured token whose entitlements cannot be read grants what an offline activation grants |
| `ClientCalls.OnlyAcceptableTokensAreStored` | client/src/lib.rs:244-254 | No file is written unless the token verifies now under the learnt key and is this machine's |
| `ClientCalls.UnacceptableTokenErrors` | client/src/lib.rs:244-249 | The error of a received token that is not |
| `ClientCalls.StoringErrors` | client/src/lib.rs:250-254 | The error of an acceptable token that cannot be sealed or stored; it is honoured exactly without one |
| `ClientCalls.DeactivationClears` | client/src/lib.rs:322-328 | After any deactivation key and entitlements are gone, each file stays exactly if not removed, and nothing else changes |
| `ClientCalls.FailedRemovalKeepsStatus` | client/src/lib.rs:322-328 | A deactivation that removed neither file leaves the next check's report as it was |
| `ClientCalls.DeactivationEnds` | client/src/lib.rs:322-328 | In every run, after a deactivation that removed the cache no check is valid until a step brings another, and it says Invalid where binary and clock are good |
| `ClientCalls.UnhonouredActivationFillsCache` | client/src/lib.rs:250-254 | Such a step can be an activation that stores the token, cannot write the marker, and reports an error |
| `ClientCalls.Perform` | client/src/lib.rs:95-333 | The client object takes exactly the steps that the theorems over runs are about |
| `Uuids.UuidSpellings` | server/migrations/000001_init.sql:9 | The column reads a text as an ID exactly when the text spells its digits in either case, with or without a hyphen between any two groups of four, in braces or not |
| `Uuids.CanonicalIsCanonical` | server/migrations/000001_init.sql:9 | What a UUID column prints is in canonical spelling |
| `Uuids.OtherSpellings` | server/migrations/000001_init.sql:9 | An ID without hyphens, in braces and in any mixture of cases is read as that ID |
| `Uuids.UpperCaseIsAnAlias` | server/migrations/000001_init.sql:9 | Writing any letter of a canonical ID in upper case makes another spelling of it |
| `Uuids.ExampleSpellings` | server/migrations/000001_init.sql:9 | Concrete spellings of one ID without hyphens and in braces |
| `Uuids.UpperCaseExample` | server/migrations/000001_init.sql:9 | A concrete spelling in upper case |
| `LicenseStore.StoredExactlyIff` | server/migrations/000001_init.sql:12-16 | The columns take a licence's fields and give back what no reply can tell from them exactly when no text has a NUL, no metadata a negative zero, the database's limits admit them, and the expiry is kept or as unprintable as what the column makes of it |
| `LicenseStore.WholeDaysInColumn` | server/migrations/000001_init.sql:16 | A timestamp column keeps a whole day exactly from day -2440588 to before day 106762940 from 1970 |
| `LicenseStore.PrintableDays` | server/internal/license/model.go:42 | A time is printed exactly on days -719528 to 2932896 from 1970 by its own zone, the years 0 to 9999 |
| `LicenseStore.ColumnKeepsIff` | server/migrations/000001_init.sql:13 | A JSON column gives a document back unchanged exactly when no negative zero is in it, at any depth |
| `LicenseStore.SameIsStoredAlike` | server/internal/db/pgstore.go:126-138 | The columns make the same of an expiry and of what they made of it before, whatever zone it is written in |
| `LicenseStore.TreeTakenIff` | server/migrations/000001_init.sql:13 | Printed entitlements have no NUL exactly when none of their texts has one, metadata and its member names at any depth included; limits of size and nesting are the database's own |
| `LicenseStore.GetByKeyHash` | server/internal/db/memstore.go:62-71 | Some licence with that hash, the first that the iteration meets, and none exactly when no licence has it |
| `LicenseStore.LookupIsUnique` | server/internal/db/memstore.go:62-71 | In a sound store the lookup by key hash has one possible answer, whatever the iteration order |
| `LicenseStore.LookupIsByID` | server/internal/db/memstore.go:52-71 | A licence found by key hash is found by its own ID |
| `LicenseStore.UpdateKeepsKeysDistinctIff` | server/internal/db/memstore.go:73-81 | The in-memory update keeps key hashes distinct exactly when the written record has one and no other record holds it |
| `StoreObjects.MemStore.Create` | server/internal/db/memstore.go:33-50 | Search loop and insertion do what the store interface says |
| `StoreObjects.MemStore.GetByKeyHash` | server/internal/db/memstore.go:62-71 | The loop in any order finds the first licence with the hash that it meets, if there is one |
| `StoreObjects.MemStore.Update` | server/internal/db/memstore.go:73-81 | Replaces a whole existing record |
| `StoreObjects.MemStore.StoreOpaqueRecord` | server/internal/db/memstore.go:83-92 | Writes the upload to its own map and to the record, if any |
| `StoreObjects.MemStore.GetOpaqueRecord` | server/internal/db/memstore.go:94-102 | Reads the upload map |
| `StoreObjects.PgStore.Create` | server/internal/db/pgstore.go:81-90 | Insertion under primary key and unique key hash, of what the columns make of the fields, refused when a column cannot hold its value |
| `StoreObjects.PgStore.GetByKeyHash` | server/internal/db/pgstore.go:109-124 | The row with that key hash |
| `StoreObjects.PgStore.Update` | server/internal/db/pgstore.go:126-138 | Changes the four mutable columns of an existing row to what they make of the fields, or nothing when one of them refuses |
| `StoreObjects.PgStore.StoreOpaqueRecord` | server/internal/db/pgstore.go:140-144 | Changes the upload of a row, if it exists |
| `StoreObjects.PgStore.GetOpaqueRecord` | server/internal/db/pgstore.go:146-158 | An empty upload counts as missing |
| `ServerObjects.LicenseService.Create` | server/internal/license/service.go:38-55 | Refuses an empty key, defaults zero grace days to seven, creates under the key's hash |
| `ServerObjects.LicenseService.GetByKey` | server/internal/license/service.go:63-68 | Refuses an empty key, else looks its hash up, whatever the store |
| `ServerObjects.AuthService.Register` | server/internal/auth/service.go:29-34 | Refuses an empty upload, else stores it |
| `ServerObjects.AuthService.StartLogin` | server/internal/auth/service.go:36-50 | Succeeds exactly when an upload is stored and the random source works, with the nonce and the keyed hash of request and nonce |
| `ServerObjects.Api.CreateLicense` | server/internal/api/server.go:104-124 | The handler is its protocol step, an expiry that JSON cannot print included |
| `ServerObjects.Api.GetLicense` | server/internal/api/server.go:126-132 | The handler is its protocol step |
| `ServerObjects.Api.UpdateBegin` | server/internal/api/server.go:135-138 | The lookup is its protocol step |
| `ServerObjects.Api.UpdateCommit` | server/internal/api/server.go:139-147 | Binding the body and writing the licence back is its protocol step, whatever ran in between |
| `ServerObjects.Api.UpdateLicense` | server/internal/api/server.go:134-148 | Uninterrupted, the handler is those two steps, among any other waiting handlers |
| `ServerObjects.Api.ActivateCommit` | server/internal/api/server.go:177-186 | Registration and certificate are the second step: no token is signed, and the registration stays even when no certificate can be issued |
| `ServerObjects.Api.Activate` | server/internal/api/server.go:165-187 | Uninterrupted, the handler is its two protocol steps |
| `ServerObjects.Api.ValidateCommit` | server/internal/api/server.go:201-215 | Login and issue are the second step, and the key's log stays the bodies of the issued tokens |
| `ServerObjects.Api.Validate` | server/internal/api/server.go:189-216 | Uninterrupted, the handler is its two protocol steps |
| `ServerObjects.Api.ServeAll` | server/internal/api/server.go:104-216 | Any interleaving of the handlers' halves over the objects of either store is a run of the protocol: same replies, same store, same trail, and a key log of exactly the issued bodies |
| `ServerObjects.Api.LogInAndIssue` | server/internal/api/server.go:201-215 | The reply, the trail and the one body signed, or the error when the random source fails |
| `Server.CreateKeeps` | server/internal/db/memstore.go:33-50 | Creating keeps a store structured, its key hashes distinct and every licence under its key, on either store |
| `Server.UpdateKeeps` | server/internal/api/server.go:134-148 | Writing back a possibly stale licence keeps a store structured and every licence, and in the table every key hash |
| `Server.RegisterKeeps` | server/internal/auth/service.go:29-34 | So does registering a non-empty upload, which is then found |
| `Server.StoreKept` | server/internal/api/server.go:104-216 | So does every protocol step, bodies that change a key hash included |
| `Server.KeysKept` | server/internal/api/server.go:104-216 | Every step keeps key hashes distinct and unchanged on the table, and in memory if no body changes one |
| `Server.StepKeepsWorldOk` | server/internal/api/server.go:104-216 | Every step keeps the store structured and every waiting handler's licence present, whatever bodies set |
| `Server.RunKeepsWorldOk` | server/internal/api/server.go:104-216 | So does every run |
| `Server.ReachableKeysAreUnique` | server/internal/db/memstore.go:33-81 | In every world reached on the table, and in memory where no body changes a key hash, licences sit under their own IDs and a key hash resolves to one of them whatever the iteration order |
| `Server.ResolutionIsStable` | server/internal/license/service.go:63-72 | And a key hash that resolves to an ID resolves to it after any further such run |
| `Server.StepKeepsResolutionIff` | server/internal/api/server.go:139-142 | In memory one step keeps every resolution exactly when its body leaves the key hash alone |
| `Server.RunKeepsResolutionIff` | server/internal/api/server.go:134-148 | In memory every step of a run keeps every resolution exactly when no body in it changes a key hash |
| `Server.StepKeepsDistinctIff` | server/internal/db/memstore.go:73-81 | In memory one step keeps key hashes distinct exactly when the hash it writes is free |
| `Server.MemoryKeysStayDistinctIff` | server/internal/db/memstore.go:33-81 | In memory no two licences share a key hash over a whole run exactly when no update in it writes one that another licence has, or none; stale writes included |
| `Server.UploadsAreRegistered` | server/internal/auth/service.go:29-34 | An upload is stored only by a registration of it |
| `Server.BuiltTokenMatches` | server/internal/api/server.go:204-211 | An issued token carries the licence ID, the machine hash and the printed entitlements, properly signed |
| `Server.IssueIsInOrder` | server/internal/api/server.go:189-216 | A successful `validate` step comes after a registration and its own lookup |
| `Server.StepKeepsTrail` | server/internal/api/server.go:165-216 | Every step keeps the audit trail in order |
| `Server.EveryTokenIsEarned` | server/internal/api/server.go:165-216 | In every run on either store, bodies that change key hashes included, every issued token is preceded by a non-empty registration for the same licence and its request's lookup, and carries that licence, machine and entitlements |
| `ServerCalls.CreateRefusedIff` | server/internal/api/server.go:104-124 | A creation is refused exactly without a key, for a taken key or ID, and where the table cannot hold it; then nothing changes |
| `ServerCalls.CreateWrites` | server/internal/api/server.go:104-124 | Any other leaves a licence under its ID and key hash with the type, entitlements and expiry asked for, seven grace days for zero, not revoked and without an upload, and the reply shows it |
| `ServerCalls.UpdateRefusedIff` | server/internal/api/server.go:134-148 | An update is refused exactly when its body cannot be bound or the table cannot hold it; then nothing is written |
| `ServerCalls.UpdateWrites` | server/internal/api/server.go:139-147 | Any other writes type, expiry, revoked and entitlements each as the body sets it or as it was looked up, keeps the upload and in the table the key hash, and the reply shows the same |
| `ServerCalls.ReadShows` | server/internal/api/server.go:126-132 | A read shows the licence found by the ID, or says there is none or that it cannot be printed |
| `ServerCalls.EditBeginsIff` | server/internal/api/server.go:135-138 | An update begins exactly with an ID that finds a licence; else 404 and nothing is done |
| `ServerCalls.RequestIsRemembered` | server/internal/api/server.go:134-204 | A request that begins keeps its ID, machine, upload or login request as sent, and the licence its key or ID found |
| `ServerCalls.OtherRequestsWait` | server/internal/api/server.go:104-216 | Other requests leave a waiting one as it is |
| `ServerCalls.RequestIsAnsweredOnce` | server/internal/api/server.go:134-216 | After its second half a request is gone |
| `ServerCalls.BeginsIff` | server/internal/api/server.go:152-163 | A client request begins exactly with a key that some licence has; else it is unauthorized and does nothing |
| `ServerCalls.ActivationRegisters` | server/internal/api/server.go:177-186 | With an upload the registration is stored and kept even if no certificate follows; without one nothing is |
| `ServerCalls.CertificateNames` | server/internal/api/server.go:180-186 | The certificate names the licence and the machine and carries the entitlements looked up |
| `ServerCalls.OthersAreUntouched` | server/internal/api/server.go:104-216 | Every request leaves all licences but its own as they were, uploads included |
| `ServerCalls.UploadsAreTheLastRegistered` | server/internal/auth/service.go:29-34 | In every run the upload stored for a licence is the one registered last for it |
| `ServerCalls.ValidateSucceedsIff` | server/internal/api/server.go:189-216 | In every run a login that found its licence gets a token exactly when an upload was registered for it before and both random draws work; else 401, or 500 if only the token's nonce is missing |
| `ServerCalls.TokenReplyIsIssued` | server/internal/api/server.go:201-215 | In every run the bytes of a token reply are the one token its step issues, in order, now and for 30 days, with nothing after it; within the cap they parse to it and verify under the published key exactly in its window |
| `ServerCalls.UuidBytesPrintBack` | server/internal/token/token.go:72-85 | The 16 bytes in a token, printed as a UUID, are the licence's ID |
| `Mirror.LookupByIDMirrorsIff` | server/internal/db/pgstore.go:92-107 | A lookup by ID agrees between the stores exactly when the ID is not another spelling of a stored one |
| `Mirror.UpdateMirrorsIff` | server/internal/db/pgstore.go:126-138 | An update has the same outcome and leaves the same licences exactly when the columns can hold the new fields and the key hash is the old one |
| `Mirror.CreateMirrorsIff` | server/internal/db/pgstore.go:81-90 | Creating has the same outcome and leaves the same licences exactly when the licence's ID or key is taken or its fields can be stored |
| `Mirror.NewLicenseIsStorableIff` | server/internal/api/server.go:109-119 | A new licence can be stored exactly when its texts have no NUL, its metadata no negative zero, the database's limits admit it, and its expiry is kept |
| `Mirror.WholeSecondsAreKeptIff` | server/internal/api/server.go:116-119 | An expiry in seconds within the column's range is kept exactly when it is printable both in UTC and in the server's zone, or in neither |
| `Mirror.LookupByKeyMirrors` | server/internal/db/pgstore.go:109-124 | Lookups by key hash agree |
| `Mirror.RegisterMirrors` | server/internal/db/pgstore.go:140-144 | Registering keeps the stores alike |
| `Mirror.UploadsMirror` | server/internal/db/pgstore.go:146-158 | Upload lookups agree |
| `Mirror.CommitUpdateMirrorsIff` | server/internal/api/server.go:142-147 | Writing back a licence read before an activation gets the same reply and leaves the same licences exactly when its new fields can be stored and its key hash is left alone |
| `Mirror.StepMirrorsIff` | server/internal/api/server.go:104-216 | From worlds that mirror each other a step gets the same reply and leaves the same licences, uploads, handlers and trail if and only if it stays out of the listed cases |
| `Mirror.StepMirrors` | server/internal/api/server.go:104-216 | And then it leaves worlds that mirror each other |
| `Mirror.RunsMirrorIff` | server/internal/api/server.go:104-216 | Two runs agree at every request if and only if every step stays out of them |
| `Mirror.MemoryMirrorsTable` | server/internal/db/memstore.go:33-102 | From empty stores, any interleaving gets the same replies and leaves the same licences, uploads, handlers and trail in both if and only if it stays out of those cases |
| `MirrorGaps.AliasTellsThemApart` | server/internal/db/pgstore.go:92-107 | Create, then get by another spelling of the ID: 404 from memory, the licence from the table |
| `MirrorGaps.LateExpiryTellsThemApart` | server/internal/api/server.go:109-119 | Expiry 9300000000000: memory keeps the licence and lets it be activated, the table refuses it |
| `MirrorGaps.WrappedExpiryTellsThemApart` | server/internal/api/server.go:109-119 | Expiry 2^58 seconds: the table shows 1970, memory a time it cannot print |
| `MirrorGaps.NulTellsThemApart` | server/internal/db/pgstore.go:81-90 | A licence type with a NUL: created in memory, refused by the table |
| `MirrorGaps.FractionTellsThemApart` | server/internal/db/pgstore.go:126-138 | Update the expiry to 500 ns and read: memory shows 500 ns, the table 0 |
| `MirrorGaps.ZoneTellsThemApart` | server/internal/db/pgstore.go:126-138 | Update the expiry to 9999-12-31T23:30:00-01:00 on a server in UTC and read: memory prints it, from the table it is the unprintable year 10000 |
| `MirrorGaps.NegativeZeroTellsThemApart` | server/internal/db/pgstore.go:81-90 | Metadata with a negative zero: memory shows it, the table shows zero |
| `MirrorGaps.KeyTellsThemApart` | server/internal/api/server.go:139-142 | A body that changes the key hash: the old key is unknown in memory and known to the table |
| `MirrorGaps.PartingShows` | server/internal/api/server.go:104-216 | Every step into one of those cases shows in a reply: its own, or one to the next two requests |
| `EndToEnd.AcceptedTokensWereEarned` | client/src/token.rs:71-97 | Bytes a client accepts under the server's key are one token of the server's run, issued in order |
| `EndToEnd.ValidMeansLicensed` | client/src/lib.rs:259-309 | A valid check means the server issued the cached token to this machine's hash after a registration; the client shows the entitlements the server held at lookup where their text reads back as printed, those of whatever object it reads as otherwise, and the old ones where it reads as none |
| `EndToEnd.PublishedKeyIsLearnt` | server/internal/token/token.go:56-58 | The published key text, inside any whitespace, is learnt as the server's key |
| `EndToEnd.IssuedChainIsAccepted` | client/src/lib.rs:208-224 | The chain an authority issues is accepted by an activation exactly while its three windows are open |
| `EndToEnd.IssuedTokenActivatesIff` | client/src/lib.rs:165-257 | An activation brought the bytes of a token reply of any run reports no error if and only if the issued token fits the cap and is in its window, is for this machine, comes with an acceptable chain or none, and can be sealed and stored |
| `EndToEnd.IssuedTokenActivates` | client/src/lib.rs:140-309 | Such an activation keeps those bytes, shows what was granted, and later checks on that machine follow the token's phases, with the exact marker condition |
| `Seats.SeatTable.SeatAcquire` | server/internal/api/server.go:243-258 | Refuses an empty machine ID, else records the seat and reports the size of the active set |
| `Seats.SeatTable.SeatRelease` | server/internal/api/server.go:260-274 | Refuses an empty machine ID, else removes the seat and reports the size of the active set |
| `Seats.SeatTable.SeatStatus` | server/internal/api/server.go:231-241 | Lists each active machine once |
| `Seats.SeatsFollowLatestCalls` | server/internal/api/server.go:231-274 | After any calls a machine is active exactly when the latest successful call about it was an acquire, with that call's time |
| `Seats.SeatsAreMachines` | server/internal/api/server.go:243-274 | Without a machine ID no seat is ever taken |
| `Seats.OtherLicencesUntouched` | server/internal/api/server.go:243-274 | A call touches no other licence, and release creates nothing |
| `Seats.EntriesComeFromAcquiring` | server/internal/api/server.go:250-252 | A licence has an entry exactly when some seat of it was ever acquired |
| `Matching.FuzzyMatch` | server/internal/hardware/match.go:8-19 | The loop in any order compares the number of agreeing non-empty components with the threshold, which defaults to four |
| `Matching.ComponentAddsOneIff` | server/internal/hardware/match.go:12-17 | One more component raises the score by one exactly when both sides have it with the same non-empty value |
| `Matching.ScoreIsSymmetric` | server/internal/hardware/match.go:12-17 | The score is the same with the arguments swapped |
| `Matching.ScoreChains` | server/internal/hardware/match.go:12-17 | Score(p,q) is at least Score(p,n) + Score(n,q) less the size of n |
| `Matching.LossesBoundDrift` | server/internal/hardware/match.go:12-17 | Along a chain of any length the losses of the steps bound the loss from first to last |
| `Certificates.IssuedChainVerdict` | client/src/cert.rs:41-63 | An issued chain is accepted exactly while all three windows are open, and is otherwise an invalid certificate |
| `Certificates.LeafIsNoAuthority` | client/src/cert.rs:79-84 | An issued leaf is never accepted as root or intermediate |
| `Certificates.ChainErrors` | client/src/cert.rs:41-67 | Bytes that are no certificate are a crypto error, any other refusal an invalid certificate |
| `Certificates.AcceptedChainIsSound` | client/src/cert.rs:51-116 | Every certificate of an accepted chain is in its window and signed with Ed25519, and the upper two are authorities with good keys |
| `Certificates.AcceptedRootSignedItself` | client/src/cert.rs:58 | Whatever is presented, the root of an accepted chain was signed by its own key |
| `Certificates.AcceptedIntermediateIsCertified` | client/src/cert.rs:59 | Whatever is presented, the intermediate of an accepted chain was certified by the root presented with it |
| `Certificates.OnlyIssuedLeavesAreAccepted` | client/src/cert.rs:60 | Whatever is presented, the leaf of an accepted chain was signed by the intermediate presented with it |
| `Certificates.AcceptedUnderPinnedRoot` | client/src/cert.rs:41-63 | Under an honest authority's root an accepted leaf was signed by the intermediate key that root certified, or else the root itself stands in the lower positions |
| `Certificates.RootAloneIsAChain` | client/src/cert.rs:51-60 | That second case is accepted, exactly in the root's window |
| `Certificates.ForeignIntermediateIsRejected` | client/src/cert.rs:59 | An intermediate that the presented root did not certify is refused at all times, whatever the leaf |
| `Certificates.MixedChainIsRejected` | client/src/cert.rs:59 | One authority's intermediate and leaf are refused under another's root at all times |
| `Certificates.ForeignLeafIsRejected` | server/internal/ca/ca.go:98-131 | A leaf with a key that the presented intermediate signed none for, such as another authority's, is refused at all times |
| `Certificates.LeafNamesLicenceAndMachine` | server/internal/ca/ca.go:111-115 | An issued leaf has its key, and its subject gives back licence and machine hash |
| `Handles.Client.constructor` | sdk/cpp/include/licensify.hpp:69 | A default-constructed wrapper holds nothing |
| `Handles.Client.Create` | sdk/cpp/include/licensify.hpp:71-82 | Succeeds exactly with both paths given and a native client allocated, which the new wrapper then owns; the account of all handles takes the `Create` step |
| `Handles.Client.MoveConstruct` | sdk/cpp/include/licensify.hpp:86 | Takes over the other's handle and logger; the account takes the `MoveConstruct` step |
| `Handles.Client.Destroy` | sdk/cpp/include/licensify.hpp:98 | Frees the held handle, if any; the account takes the `Destroy` step |
| `Handles.Client.Close` | sdk/cpp/include/licensify.hpp:100-105 | Frees the held handle, if any, and forgets it; the account takes the `Close` step |
| `Handles.Client.MoveAssign` | sdk/cpp/include/licensify.hpp:87-96 | Frees what it held and takes over the other's handle and logger; self-assignment does nothing; the account takes the `MoveAssign` step |
| `Handles.StepKeepsOwned` | sdk/cpp/include/licensify.hpp:71-105 | Every operation keeps each handle either held once and never freed, or freed once and held by none |
| `Handles.HandlesAreFreedOnce` | sdk/cpp/include/licensify.hpp:71-105 | Over any program no two wrappers share a handle, none is freed twice, and once all wrappers are gone each created handle was freed exactly once |

## Left out

- HTTP, routing, the admin API key, JSON text, SQL text and connection handling: requests are events, JSON is a tree, each SQL statement is one atomic change of rows.
- Cryptographic internals, and the X.509 and DER encodings: arbitrary functions with the laws named above; certificate bodies are records of window, authority flag, key and subject.
- `ServerObjects.Api.UpdateCommit`: a body sets fields of a copy of the licence. Decoding it into a record that shares pointers and maps with the in-memory store, which can change the stored record before the update, is not captured; records are values throughout, also in `Mirror`.
- `created_at` and `max_activations` of a licence record: the two updates treat them differently and the protocol never reads them.
- `StoreObjects.PgStore.Create`: the two 64-bit counts that PostgreSQL reserves for infinity (sent for 1 of every 2^58 expiries in seconds) are refused here; the real table keeps a row that no lookup can read. Memory keeps a readable licence either way.
- `Server.UuidBytes`: reads the 36-character spelling only; the IDs that reach it are canonical (`Server.StepKeepsWorldOk`).
- Changes to the marker file from outside: every other interference is covered, but the marker is only as good as the file.
- Trial and offline-grace statuses, revocation and seat limits: the client never acts on them.
- The time a seat was acquired is recorded but never read by the server; the mutex makes each call atomic.
- Logging, `activate`, `check` and `hasFeature` of the C++ wrapper, which only pass through; moving a wrapper into itself while constructing it is undefined and excluded.
- Hardware probing, the FFI layer, the other language wrappers and the tools: thin layers over what is modelled.
