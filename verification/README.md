# placemat: the virtual BMC and its neighbours, modelled and proved in Dafny

placemat builds virtual data centers. Every virtual machine gets a virtual BMC: a hand-written IPMI v2.0
server (`v2/pkg/virtualbmc`) with a session table, the four-message RAKP key exchange, layered packet
parsers and printers, checksums, AES-CBC payloads and power commands, next to a Redfish front end for the
same power commands. This project models that server from the datagram in the receive buffer to
the reply bytes, and five smaller parts of placemat that carry a real argument: the channel on which guests
report their BMC address, the log writer, the iptables setup and cleanup, cluster loading, and NUMA ranges.

`dafny verify dfyconfig.toml` verifies everything.

## How the model is built

- **Bytes and integers.** `byte`, `u16` and `u32` are bounded integers; wrap-around and truncation are
  written out (the `uint32` checksum sum, the byte index in `decryptByCBCMode`, the one-byte message length).
  Masks and shifts of bit fields are divisions and remainders by powers of two.
- **Cryptography.** HMAC-SHA1 and the AES block operations are the fields of `Crypto.Suite`, so every theorem
  holds for any functions of those shapes. That deciphering undoes enciphering is a stated hypothesis where it
  is used. No theorem assumes that HMAC is injective: agreement lemmas end in "or here are two colliding inputs".
- **Randomness.** The random source is a finite byte stream; when it is used up the call fails, which is the
  error path of the code. Theorems quantify over the stream.
- **Go panics.** Slice bounds and `CryptBlocks` size panics are the outcome `Fault`, and a `Fault` ends a run.
- **State.** `Rmcp` says as a function what one received buffer does to the whole BMC. `Server` is the code's
  own form: session objects updated in place, a session map, a reader that parsers advance, a shared 1024-byte
  buffer and a receive loop. Each of its methods is proved to be exactly that function. The function also
  reports protocol events; they are the history that the run theorems speak about.
- **Machine.** The machine answers each call from a script: it works, or it fails with any status afterwards.
  PowerOn that works leaves it on, PowerOff leaves it off.
- **Independent references.** What the code computes is stated a second time without its own functions: a console
  (`Handshake`) and a requester (`Requester`) by byte positions and code numbers, sealed messages by bits and block
  numbers (`Crypto.IsSealing`), power commands by literal bytes and strings, iptables rules by what happens to
  packets (`NatTraffic`), documents by the conditions they have to meet (`Cluster.Acceptable`).
- **`hide` statements** in proofs only keep definitions out of the solver's sight; they add no assumption.

Main results, each over all inputs, states or runs:

- *Runs.* The session table is always the replay of the event log, every event was permitted when it happened
  (`Runs.RunReplays`), and every session has the history its content claims (`Runs.TableInvariant`). Behind
  every dispatched command is an RAKP 3 whose code, found in the receive buffer, is the right one for its challenge
  (`Runs.OrderSafety`, `Packets.CodesWereReceived`), so its sender agrees on the exchanged values or two HMAC
  inputs collide (`Agreement.DispatchedMeansAgreement`).
- *Packets.* From a buffer and the state it meets one can tell the only session it can change (`Packets.StepNamed`,
  `Packets.OnePacketOneSession`) and whether it panics the server (`Packets.PanicsIff`).
- *Power over runs.* The machine has obeyed exactly the messages served (`PowerRuns.MachineObeys`), no order is
  ever redundant (`PowerRuns.NoRedundantOrdersOverRuns`), and without v1.5 packets the machine does not change
  before a handshake (`PowerRuns.PowerNeedsHandshake`).
- *Requests.* Every request, by the byte positions and code numbers of section 13.8 of IPMI v2.0, is answered as it
  means, byte for byte, in the v1.5 format (`Requester.PlainExchange`) and encrypted (`Requester.SealedExchange`).
- *Handshake.* A console written from section 13.31 of IPMI v2.0, independently of the server's code, is never
  refused and ends up with the server's keys under arbitrary interleaving (`Handshake.HandshakeCompletes`). It is
  connected whatever packets arrive in between, as long as none names its session or panics and random bytes
  last (`Handshake.EstablishedAmongOthers`), and its encrypted commands, as long as they fit the receive buffer,
  are served and answered (`Replies.ConnectedConsoleIsServed`) until it closes its session
  (`Replies.ClosedForGood`). At a started server that is user cybozu and nobody else (`Started.CybozuConnects`,
  `Started.OthersAreRefused`, `Started.PasswordDecides`).
- *Stale buffer.* Two servers with different leftovers in their buffers behave alike on complete packets
  (`StaleBuffer.RunsAgree`).
- *Restore.* iptables cleanup restores the host from any point at which the setup stopped, also after any
  number of cleanups that failed in part (`NatRules.RestoredFromAnywhere`). In between, packets are accepted and
  masqueraded exactly as the networks ask (`NatTraffic.TrafficAfterSetup`).

Some properties one might expect are false of the code; each is stated with its exact condition:

- Decryption reads a correctly sealed message back only up to 15 bytes (`Crypto.DecryptReadsBackIff`, with
  `Crypto.SixteenBytesAreLost`), so a request of more than 8 data bytes is cut (`Replies.SeenIff`). Replies of
  16 bytes, that is served Get Channel Authentication Capabilities, panic on the encrypted path; this and every
  other panic is in `Packets.PanicsIff`. Two packets without a password suffice (`Handshake.TwoPacketsEndTheRun`).
- A power order does not always need a handshake: v1.5 packets are served in every state
  (`PowerRuns.PlainNeedsNoHandshake`), and without them it does (`PowerRuns.PowerNeedsHandshake`).
- An encrypted packet is not good for one use only: seen again it is served again (`Replies.ReplayIsServed`),
  until its session is closed (`Replies.ClosedForGood`).
- The log writer depends on how its input is cut into chunks exactly when a cut falls inside a CR LF pair
  (`LogWriter.ChunkingIrrelevantIff`, with `LogWriter.ChunkingMattersWitness`).
- Node validation does not fill in the defaults of a volume's cache or of a raw volume's format, because it
  validates copies (`Cluster.DefaultsAreLost`, with `Cluster.DefaultsAreLostWitness`). `v2/pkg/vm/volume.go:23-31`
  and `57-66` fill in the same values again later (`Cluster.DefaultsReturn`).

## Model

| member | source | states |
|---|---|---|
| Wire.LittleEndian | v2/pkg/virtualbmc/rmcp_plus_session.go:74-80 | two and four bytes are written and read with the byte of weight 1 first |
| Crypto.XorBlockCancels | v2/pkg/virtualbmc/rmcp_plus.go:662-663 | exclusive or of blocks, as chaining uses it, undoes itself |
| Crypto.BitSumIff | v2/pkg/virtualbmc/rmcp_plus.go:662-682 | the exclusive or of two blocks is the one block each of whose bits is the sum modulo 2 of theirs |
| Crypto.EncryptChains | v2/pkg/virtualbmc/rmcp_plus.go:680-682 | every cipher block is the cipher of the plain block added bit by bit to the cipher block before it, the first to the vector |
| Crypto.DecryptUnchains | v2/pkg/virtualbmc/rmcp_plus.go:662-663 | every plain block is the deciphered block added bit by bit to the cipher block before it |
| Crypto.CbcRoundTrip | v2/pkg/virtualbmc/rmcp_plus.go:662-682 | chained decryption undoes chained encryption for every key, vector and whole number of blocks |
| Crypto.PadPKCS7 | v2/pkg/virtualbmc/rmcp_plus.go:686-694 | the loop builds the pad of section 13.29: the message, then 1, 2, 3 and so on, last byte plus one the number added, total a multiple of 16, 1 to 16 bytes added |
| Crypto.UnpadOfPadded | v2/pkg/virtualbmc/rmcp_plus.go:665-666 | the byte-sized cut takes the first n % 16 bytes of a padded message of n bytes and never panics on one |
| Crypto.UnpadByLastByte | v2/pkg/virtualbmc/rmcp_plus.go:665-666 | where the cut falls for every last byte, wrap-around and panic included |
| Crypto.DecryptOfSealed | v2/pkg/virtualbmc/rmcp_plus.go:646-667 | what the server makes of a correctly sealed message of any length |
| Crypto.SealingIff | v2/pkg/virtualbmc/rmcp_plus.go:671-694 | exactly one message is vector, section 13.29 pad and chained blocks, by bits and positions: the one the code makes |
| Crypto.SealingIsOpened | v2/pkg/virtualbmc/rmcp_plus.go:646-667 | any message sealed so, without naming the code, is read up to its length modulo 16 |
| Crypto.DecryptReadsBackIff | v2/pkg/virtualbmc/rmcp_plus.go:646-667 | it reads the message back if and only if it is at most 15 bytes |
| Crypto.SixteenBytesAreLost | v2/pkg/virtualbmc/rmcp_plus.go:665-666 | a correctly sealed message of 16 zero bytes is read as the empty message |
| Crypto.EncryptThenDecrypt | v2/pkg/virtualbmc/rmcp_plus.go:646-694 | encryption succeeds iff the key has a block and the message at most 15 bytes, is 32 bytes, and decrypts to the message; otherwise it panics |
| Power.Machine.GetPowerStatus | v2/pkg/virtualbmc/bmc_server.go:18-22 | answers with the status or an error, changing only what the script says |
| Power.Machine.PowerOn | v2/pkg/virtualbmc/bmc_server_test.go:332-335 | leaves the machine on, or fails; the order is recorded |
| Power.Machine.PowerOff | v2/pkg/virtualbmc/bmc_server_test.go:337-340 | leaves the machine off, or fails; the order is recorded |
| Power.ChassisControl | v2/pkg/virtualbmc/ipmi_chassis.go:101-158 | chassis control is the wish of its control byte: refused when pointless, otherwise its orders until one fails |
| Power.ComputerSystemReset | v2/pkg/virtualbmc/redfish_system.go:382-453 | the system Reset action has the same effect per wish, with status 204, 409, 500 or 400 |
| Power.ChassisActionsReset | v2/pkg/virtualbmc/redfish_chassis.go:286-331 | the chassis Reset action likewise, and rejects all but On and ForceOff |
| Power.ControlBytes | v2/pkg/virtualbmc/ipmi_chassis.go:28-33 | control bytes 0 to 3 and all others, on every machine: status query, refusal, orders in sequence, failure |
| Power.ControlOutcomes | v2/pkg/virtualbmc/ipmi_chassis.go:101-158 | on a machine that answers: 0 leaves it off after one TurnOff, 1 on after one TurnOn, 2 and 3 on after both; refused and unchanged when already there; other bytes accepted without effect |
| Power.ResetStrings | v2/pkg/virtualbmc/redfish.go:112-121 | the reset strings against the control bytes: same machine, 204, 409 and 500 for granted, refused and failed; chassis 400 for all but On and ForceOff; 400 for an unreadable body |
| Power.FrontEndsAgree | v2/pkg/virtualbmc/redfish_system.go:382-453 | corresponding IPMI and Redfish commands reach the same machine with the same calls and accept alike |
| Power.WishOutcome | v2/pkg/virtualbmc/ipmi_chassis.go:108-150 | on a machine that answers: granted iff not pointless, final status and exact orders; else nothing changed |
| Power.NoRedundantOrders | v2/pkg/virtualbmc/ipmi_chassis.go:101-158 | over any serialised mix of requests, failures and spontaneous status changes, PowerOn never reaches a machine that is on or powering on, PowerOff never one that is off or powering off |
| Ipmi.Deserialize | v2/pkg/virtualbmc/ipmi.go:70-103 | the reader-driven parser gives the message at the front, or an error when bytes are missing |
| Ipmi.Serialize | v2/pkg/virtualbmc/ipmi.go:172-221 | the summing loop in a uint32 prints the message with both checksums right modulo 256 |
| Ipmi.ChecksumsAddUp | v2/pkg/virtualbmc/ipmi.go:172-225 | the first three and the remaining bytes of a printed response each sum to 0 modulo 256 |
| Ipmi.RequestAddsUpIff | v2/pkg/virtualbmc/ipmi.go:174-215 | a printed request sums to 0 iff its unwritten completion code is 0 |
| Ipmi.ParseOfPrint | v2/pkg/virtualbmc/ipmi.go:70-103 | parsing a printed message gives it back, the completion code of a response becoming the first data byte |
| Ipmi.AppendMessageHeader | v2/pkg/virtualbmc/ipmi.go:146-170 | a handler result or error becomes the checksummed reply with code 0x00 or 0xd5 |
| Ipmi.HandleChassis | v2/pkg/virtualbmc/ipmi_chassis.go:49-99 | serves status and control on the machine, everything else is an error |
| Ipmi.ReplyLength | v2/pkg/virtualbmc/ipmi.go:105-156 | every reply is 8 to 16 bytes; 16 iff a served Get Channel Authentication Capabilities, at most 12 otherwise |
| Ipmi.ReplyChecksums | v2/pkg/virtualbmc/ipmi.go:105-225 | both checksums of every reply to every request add up |
| Ipmi.ReplyRoundTrip | v2/pkg/virtualbmc/ipmi.go:146-221 | a parsed reply has swapped addresses and LUNs, the sequence number, command, response network function, and completion code before the data |
| Ipmi.CommandAnswers | v2/pkg/virtualbmc/ipmi_app.go:229-268 | what a requester reads in the parsed reply of each served App and Chassis command |
| Ipmi.ControlThenStatus | v2/pkg/virtualbmc/bmc_server_test.go:27-105 | an accepted power command shows in the next chassis status; a rejected one does not change it |
| Sessions.FreshIdIsFirst | v2/pkg/virtualbmc/rmcp_plus_session.go:31-45 | allocation returns the first drawn id not in the table and fails only when all draws were taken |
| Sessions.FreshIdFound | v2/pkg/virtualbmc/rmcp_plus_session.go:31-45 | any table size plus one distinct draws contain a fresh id |
| Sessions.HexPrefixIff | v2/pkg/virtualbmc/rmcp_plus.go:698-713 | a generated number determines, and depends on, exactly the first eight drawn bytes |
| Sessions.NumberSpells | v2/pkg/virtualbmc/rmcp_plus.go:698-713 | two lower-case hexadecimal digits per drawn byte, the high one first |
| Sessions.Random.Id | v2/pkg/virtualbmc/rmcp_plus_session.go:67-81 | draws four bytes as a little-endian id, or fails |
| Sessions.Random.Number | v2/pkg/virtualbmc/rmcp_plus.go:698-713 | draws 16 bytes and keeps 16 hexadecimal characters, or fails |
| Sessions.SessionHolder.NoSharing | v2/pkg/virtualbmc/rmcp_plus_session.go:9-53 | distinct ids never share a session object |
| Sessions.SessionHolder.DrawId | v2/pkg/virtualbmc/rmcp_plus_session.go:32-45 | the retry loop yields the first fresh draw and consumes exactly the draws up to it |
| Sessions.SessionHolder.GetNew | v2/pkg/virtualbmc/rmcp_plus_session.go:31-53 | a new blank session object under a fresh id, all others untouched |
| Sessions.SessionHolder.Remove | v2/pkg/virtualbmc/rmcp_plus_session.go:60-65 | removes that session only, if present |
| Sessions.SessionHolder.StoreTranscript | v2/pkg/virtualbmc/rmcp_plus.go:334-339 | RAKP 1 updates one session object in place; its keys and all other sessions stay |
| Sessions.SessionHolder.StoreKeys | v2/pkg/virtualbmc/rmcp_plus.go:450-452 | RAKP 3 sets the three keys of one session object; everything else stays |
| Server.UserHolder.Add | v2/pkg/virtualbmc/bmc_user.go:20-27 | adds or replaces one user |
| Server.GenerateKeyingMaterial | v2/pkg/virtualbmc/rmcp_plus.go:540-548 | the loop feeds the section 13.32 constant, 20 equal bytes, to HMAC under the SIK |
| Server.BmcServer.HandleOpenSessionRequest | v2/pkg/virtualbmc/rmcp_plus.go:231-283 | Open Session does exactly the Open step on state, reply and events |
| Server.BmcServer.ProcessRakp1 | v2/pkg/virtualbmc/rmcp_plus.go:294-365 | RAKP 1: session and user lookup, name-length panic, fresh numbers, stored transcript, RAKP 2 code |
| Server.BmcServer.ProcessRakp3 | v2/pkg/virtualbmc/rmcp_plus.go:409-474 | RAKP 3: accepted iff the code matches the stored transcript; keys and check value |
| Server.BmcServer.DeriveKeys | v2/pkg/virtualbmc/rmcp_plus.go:446-452 | stores the SIK with the two keys generated from it in one session, the others staying as they were |
| Server.BmcServer.HandleIpmi | v2/pkg/virtualbmc/ipmi.go:105-144 | dispatch to App and Chassis with their effects on table and machine |
| Server.BmcServer.SendSealed | v2/pkg/virtualbmc/rmcp_plus.go:597-637 | seals and frames a reply under a session's keys, also when the session just left the table |
| Server.BmcServer.HandleEncryptedRequest | v2/pkg/virtualbmc/rmcp_plus.go:568-637 | the encrypted path with all its error and panic outcomes |
| Server.BmcServer.HandleRmcpPlus | v2/pkg/virtualbmc/rmcp_plus.go:187-229 | session header and payload-type dispatch |
| Server.BmcServer.ReadWrapper | v2/pkg/virtualbmc/ipmi_session.go:107-125 | the v1.5 wrapper parser, authentication code present iff the session id is not 0 |
| Server.BmcServer.HandleV15 | v2/pkg/virtualbmc/ipmi_session.go:60-89 | the v1.5 path, without a session |
| Server.BmcServer.HandleRmcpRequest | v2/pkg/virtualbmc/rmcp.go:27-83 | class dispatch and reply header: the whole step on a received buffer |
| Server.BmcServer.ServePackets | v2/pkg/virtualbmc/bmc_server.go:45-66 | the receive loop over one shared buffer is the run function: replies, state, buffer, log |
| Server.StartIpmiServer | v2/pkg/virtualbmc/bmc_server.go:35-66 | from one named user, no session and a zeroed buffer, every run is a run of that function |
| Server.FreshServerIsInitial | v2/pkg/virtualbmc/bmc_server.go:41-43 | such a server has an empty table and no empty user name, which the run theorems start from |
| Started.CybozuConnects | v2/pkg/virtualbmc/bmc_server.go:41-43 | in every state a started server reaches, user cybozu with password cybozu is connected, whatever packets not naming its session come in between, while random bytes last |
| Started.CybozuConnectsAtOnce | v2/pkg/virtualbmc/bmc_server.go:35-66 | alone with a server just started 36 random bytes suffice |
| Started.OthersAreRefused | v2/pkg/virtualbmc/rmcp_plus.go:316-323 | any other name is refused at RAKP 1 and nothing changes |
| Started.PasswordDecides | v2/pkg/virtualbmc/rmcp_plus.go:425-431 | an RAKP 3 made with any password is accepted iff its code is the one made with password cybozu; otherwise nothing changes |
| Runs.StepReplays | v2/pkg/virtualbmc/rmcp.go:27-38 | every buffer content whatsoever causes only events enabled in the current table, an accepted RAKP 3 only with the code that is right for the stored transcript, and leads exactly to the table they make |
| Runs.RunReplays | v2/pkg/virtualbmc/bmc_server.go:46-66 | over every run the table is the replay of the event log, each event having been enabled, so every accepted RAKP 3 had the right code |
| Runs.UntouchedStays | v2/pkg/virtualbmc/rmcp_plus_session.go:31-65 | a session no event touches is unchanged over any log |
| Runs.EverySessionHasAStory | v2/pkg/virtualbmc/rmcp_plus.go:334-339 | content of a session equals what its Open, last RAKP 1 and last accepted RAKP 3 in the log account for |
| Runs.TableInvariant | v2/pkg/virtualbmc/rmcp_plus.go:446-452 | in every reachable state: key equals managed id, name empty or registered, keys all absent or all derived from the transcript of the last RAKP 3, accepted with the right code for it, even after a later RAKP 1 |
| Runs.OrderSafety | v2/pkg/virtualbmc/rmcp_plus.go:568-596 | every command dispatched from an encrypted packet in any run was preceded by Open, RAKP 1 and an RAKP 3 against it, with no close or reopen since; the code of that RAKP 3 is the HMAC, under the registered password, of that console id and transcript |
| Runs.Rakp3NeedsRakp1 | v2/pkg/virtualbmc/rmcp_plus.go:415-431 | in every reachable state an RAKP 3 without RAKP 1 since the session was opened is refused and changes nothing, whatever an earlier session of that id did |
| Packets.StepNamed | v2/pkg/virtualbmc/rmcp_plus.go:187-229 | whatever a buffer holds, it challenges, keys or closes only the session it names: the managed id of RAKP 1 and 3, the target of a Close Session, plain or encrypted |
| Packets.UnnamedUntouched | v2/pkg/virtualbmc/rmcp_plus_session.go:31-65 | a session in the table that a packet does not name is touched by no event of it |
| Packets.OnePacketOneSession | v2/pkg/virtualbmc/rmcp_plus_session.go:31-65 | one packet changes no user and at most one session: the one it names, or one it opens under a free id |
| Packets.OthersRefused | v2/pkg/virtualbmc/rmcp.go:27-38 | RMCP classes, authentication types and payload types that are refused by their numbers, changing nothing |
| Packets.KeyedByItsPacket | v2/pkg/virtualbmc/rmcp_plus.go:409-431 | a session is keyed only by a buffer holding an RAKP 3 for it with the code the event records |
| Packets.CodesWereReceived | v2/pkg/virtualbmc/bmc_server.go:45-66 | over every run the code of each accepted RAKP 3 was in the receive buffer when some packet was handled, in an RAKP 3 for that session, and in that packet itself unless it was shorter than an RAKP 3 |
| Packets.DecryptPanicsIff | v2/pkg/virtualbmc/rmcp_plus.go:646-667 | decryption panics iff whole blocks meet a short key, nothing after the vector, or a cut past the end |
| Packets.SealedReplyEnds | v2/pkg/virtualbmc/rmcp_plus.go:597-637 | sealing a reply panics iff keys are missing, or random bytes are left and the reply exceeds 15 bytes; it fails iff they are not left |
| Packets.PanicsIff | v2/pkg/virtualbmc/rmcp.go:27-83 | a buffer panics the server iff it is an RAKP 1 on an open session with a name length over 20, or an encrypted packet of a session with a user whose decryption panics or whose message is a served Get Channel Authentication Capabilities with random bytes left; v1.5 never does |
| Packets.NeverNamedLeavesAlone | v2/pkg/virtualbmc/bmc_server.go:45-66 | over any run of packets that never name a session nor panic, all are handled, no event touches the session and it stays as it was |
| PowerRuns.StepObeys | v2/pkg/virtualbmc/rmcp.go:27-83 | one buffer changes the machine only by the messages it has served, an RMCP+ packet only with a Dispatched event |
| PowerRuns.MachineObeys | v2/pkg/virtualbmc/bmc_server.go:45-66 | after any run the machine has obeyed exactly the messages served, in order |
| PowerRuns.NoRedundantOrdersOverRuns | v2/pkg/virtualbmc/ipmi_chassis.go:101-158 | over every run of any packets no PowerOn reaches a machine that is on or powering on, no PowerOff one that is off or powering off |
| PowerRuns.PowerNeedsHandshake | v2/pkg/virtualbmc/rmcp_plus.go:187-229 | over every run without v1.5 packets the machine has obeyed exactly the dispatched messages, and if it changed a session was opened, challenged and keyed with the right code before |
| PowerRuns.PlainNeedsNoHandshake | v2/pkg/virtualbmc/ipmi_session.go:60-89 | any request in a v1.5 packet is served in every state, with or without sessions |
| StaleBuffer.Rakp1IgnoresRest | v2/pkg/virtualbmc/rmcp_plus.go:319-339 | RAKP 1 uses only the declared prefix of the 20-byte name field |
| StaleBuffer.StaleBytesDoNotMatter | v2/pkg/virtualbmc/bmc_server.go:45-53 | for a packet holding the bytes it declares, outcome, state and events do not depend on what follows in the buffer |
| StaleBuffer.RunsAgree | v2/pkg/virtualbmc/bmc_server.go:45-66 | whole runs of such packets from different buffer contents agree in replies, state and log |
| StaleBuffer.PrefixRepeatsPacket | v2/pkg/virtualbmc/bmc_server.go:45-53 | a packet that repeats the beginning of the one before it is completed from the buffer and handled as that one again |
| Handshake.OpenAccepted | v2/pkg/virtualbmc/rmcp_plus.go:231-283 | a console's Open Session is answered as it expects, confirming level and algorithms, with a blank session under the returned id |
| Handshake.Rakp1Accepted | v2/pkg/virtualbmc/rmcp_plus.go:294-407 | a registered console's RAKP 1, sent without padding over any buffer, is answered with a code the console computes too |
| Handshake.Rakp3Accepted | v2/pkg/virtualbmc/rmcp_plus.go:409-566 | its RAKP 3 is accepted; session keys and check value equal the console's |
| Handshake.HandshakeCompletes | v2/pkg/virtualbmc/rmcp_plus.go:231-566 | for every state, buffer and registered console, with any packets interleaved, no message is refused, and unless the session was disturbed both sides hold equal SIK, K1, K2 |
| Handshake.EstablishedAmongOthers | v2/pkg/virtualbmc/rmcp_plus.go:231-566 | with any packets interleaved that never name the session nor panic, an id to allocate and random bytes left, the session is established with equal keys |
| Handshake.ConnectsAlone | v2/pkg/virtualbmc/rmcp_plus.go:231-566 | in particular without interference and with random bytes left the session is established |
| Handshake.TwoPacketsEndTheRun | v2/pkg/virtualbmc/rmcp_plus.go:294-339 | from any state with an id to allocate, an Open Session and an RAKP 1 declaring a name of 21 bytes end the run in a panic |
| Agreement.Rakp2InputInjective | v2/pkg/virtualbmc/rmcp_plus.go:376-402 | the RAKP 2 input determines ids, random numbers, GUID, privilege, name length and name |
| Agreement.Rakp3InputInjective | v2/pkg/virtualbmc/rmcp_plus.go:485-501 | the RAKP 3 input determines managed random number, console id, privilege, name length and name |
| Agreement.SikInputInjective | v2/pkg/virtualbmc/rmcp_plus.go:509-525 | the SIK input determines both random numbers, privilege, name length and name |
| Agreement.AcceptedRakp2Agrees | v2/pkg/virtualbmc/rmcp_plus.go:341-358 | an RAKP 2 code the console accepts fixes the whole transcript and the keys, or is an HMAC collision |
| Agreement.AcceptedRakp3Agrees | v2/pkg/virtualbmc/rmcp_plus.go:425-431 | an accepted RAKP 3 means agreement on random number, console id, privilege and name, or is an HMAC collision |
| Agreement.DispatchedMeansAgreement | v2/pkg/virtualbmc/rmcp_plus.go:409-596 | over every run, behind each dispatched command is an RAKP 3 code that was in the receive buffer; any console with that password that produced it agrees on console id, random number, privilege and name, or two HMAC inputs collide |
| Agreement.SameSikSameTranscript | v2/pkg/virtualbmc/rmcp_plus.go:509-530 | equal SIKs come from equal random numbers, privilege and name, or are an HMAC collision |
| Replies.WrapperRoundTrip | v2/pkg/virtualbmc/ipmi_session.go:107-147 | a printed wrapper parses back and leaves the rest |
| Replies.FullStackRoundTrip | v2/pkg/virtualbmc/ipmi_session.go:60-89 | every v1.5 reply, read through the RMCP, wrapper and IPMI parsers, answers its request with the same sequence and session id |
| Replies.PlusRepliesFramed | v2/pkg/virtualbmc/rmcp_plus.go:187-206 | the declared length of every RMCP+ reply is exact; the authenticated part is a multiple of 4 bytes |
| Replies.SealedReplyOpens | v2/pkg/virtualbmc/rmcp_plus.go:597-637 | a sealed reply has the right header and trailer, the console opens it and its integrity code matches |
| Replies.SeenIff | v2/pkg/virtualbmc/rmcp_plus.go:665-666 | a sealed request is read as sent iff it has at most 8 data bytes, and rejected iff fewer than 7 bytes are left by the cut |
| Replies.CommandUnderstood | v2/pkg/virtualbmc/rmcp_plus.go:568-596 | any plain text sealed under K2 is handled exactly as the message the server reads in it, or rejected as too short |
| Replies.CommandRoundTrip | v2/pkg/virtualbmc/rmcp_plus.go:568-637 | for any sealed plain text the message read in it takes effect as served, and its reply, addressed to the console id with the sequence number of the request, opens to the answer; no reply iff the function is unserved or random bytes are out; panic iff a served Get Channel Authentication Capabilities |
| Replies.CommandReceived | v2/pkg/virtualbmc/bmc_server.go:45-53 | the same through the receive buffer when the packet fits its 1024 bytes; a longer one is rejected as too short and changes nothing |
| Replies.ConnectedConsoleIsServed | v2/pkg/virtualbmc/rmcp_plus.go:187-637 | from Open Session to the answer of a sealed command through the receive buffer, using only keys the console computed; a command whose packet does not fit is rejected and changes nothing |
| Replies.ReplayIsServed | v2/pkg/virtualbmc/rmcp_plus.go:568-596 | the same encrypted packet seen again, after any packets not naming its session, is served again unless it closed that session |
| Replies.ClosedForGood | v2/pkg/virtualbmc/ipmi_app.go:271-280 | a console closing its session ends that one only, is still answered under its keys, and the same packet again is refused |
| Requester.RequestServed | v2/pkg/virtualbmc/ipmi.go:70-225 | every request, written by byte positions, is served as the command its code numbers mean, on every machine, and the reply has addresses, LUNs, network function, sequence number, command, code, data and checksums at their positions |
| Requester.PlainExchange | v2/pkg/virtualbmc/ipmi_session.go:46-147 | the same through RMCP header and v1.5 wrapper, with sequence number and session id at their positions, in every state; other network functions get no reply and change nothing |
| Requester.SealedExchange | v2/pkg/virtualbmc/rmcp_plus.go:568-694 | the same for a request of at most 8 data bytes sealed by bits and positions, answered by a reply sealed so, with console id, sequence number, trailer and integrity code at their positions |
| GuestChannel.StepKeepsInv | v2/pkg/vm/bmc.go:149-168 | every step of a guest or of the server keeps the channel invariant |
| GuestChannel.NeverBlocks | v2/pkg/placemat/cluster.go:103-121 | in every interleaving the channel has room for one message per node and a guest about to send finds it not full; buffered plus received messages equal the guests that have sent |
| GuestChannel.FirstLineOnce | v2/pkg/vm/bmc.go:157-166 | each guest has at most one message, with its serial and its trimmed first line |
| GuestChannel.TrimSpaceKeepsMiddle | v2/pkg/vm/bmc.go:161 | of white space, trimmed text and white space, exactly the text is sent |
| GuestChannel.LineParts | v2/pkg/vm/bmc.go:161 | every line is made so |
| GuestChannel.SpaceCodes | v2/pkg/vm/bmc.go:161 | which code points are white space |
| GuestChannel.NeverOverfull | v2/pkg/placemat/cluster.go:103-121 | no step overfills the channel |
| GuestChannel.OrderKept | v2/pkg/vm/bmc.go:162-165 | over any run messages are received in the order of sending |
| LogWriter.ColoredLogWriter.Write | v2/pkg/util/colored_log.go:47-65 | emits the prefixed and painted complete lines, as many as the underlying writer takes, and keeps the unfinished one |
| LogWriter.ColoredLogWriter.constructor | v2/pkg/util/colored_log.go:31-38 | the prefix is the kind in brackets, the name and a dash |
| LogWriter.NormalizeDeletes | v2/pkg/util/colored_log.go:51 | exactly the carriage returns before a line feed are deleted |
| LogWriter.WriteAppends | v2/pkg/util/colored_log.go:47-65 | emitted lines joined by newlines plus the leftover grow by exactly the normalised chunk |
| LogWriter.ChunkingIrrelevantIff | v2/pkg/util/colored_log.go:47-65 | lines and leftover are those of one write of the whole stream iff no chunk boundary splits a CR LF pair |
| LogWriter.ChunkingMattersWitness | v2/pkg/util/colored_log.go:47-65 | CR and LF in two chunks give a line holding CR, in one chunk an empty line |
| NatRules.CreateNatRules | v2/pkg/dcnet/nat.go:11-38 | runs the creation commands on both IP versions and stops at the first failure |
| NatRules.AppendAcceptRule | v2/pkg/dcnet/network.go:118-130 | appends the two accept rules per IP version, stopping at the first failure |
| NatRules.SetupNetworkRules | v2/pkg/dcnet/network.go:79-116 | the rules a network adds by type, NAT flag and address family |
| NatTraffic.NetworkTargets | v2/pkg/dcnet/network.go:79-137 | the rules of one network accept exactly traffic in or out of its interface, if it has NAT or is internal, and masquerade exactly what leaves its address range, on the version of the address |
| NatTraffic.TrafficAfterSetup | v2/pkg/dcnet/network.go:79-137 | after creation and any networks, every packet not decided by the own rules of the host is accepted or masqueraded in FORWARD and POSTROUTING iff some network asks for it |
| NatTraffic.SetupSucceeds | v2/pkg/dcnet/nat.go:11-38 | on a pristine host no command of creation and networks is refused |
| NatRules.CleanupNatRules | v2/pkg/dcnet/nat.go:41-90 | attempts every removal on both IP versions, whichever calls fail, only logging failures |
| NatRules.CleanupRestoresIff | v2/pkg/dcnet/nat.go:41-90 | from rules carrying any marks of a setup, with any calls failing, the cleanup gives the original rules iff no mark remains, which holds when all six calls work |
| NatRules.CleanupLeaves | v2/pkg/dcnet/nat.go:41-90 | whichever calls fail, the cleanup leaves exactly the marks that follow from those calls and nothing else |
| NatRules.FilterChainGoesIff | v2/pkg/dcnet/nat.go:64-75 | deleting the filter chain is accepted iff it has been flushed and the jump is gone: nothing else refers to it |
| NatRules.NatChainGoesIff | v2/pkg/dcnet/nat.go:77-88 | the same for the nat chain and its jump |
| NatRules.RestoredFromAnywhere | v2/pkg/dcnet/nat.go:11-90 | create, set up any networks with any calls failing, clean up any number of times with any calls failing, then once with all working: both rule sets are exactly the original ones in order |
| Cluster.ValidateNode | v2/pkg/types/cluster.go:196-219 | accepts or rejects a node and moves cpu into smp |
| Cluster.ReadSingleYamlDoc | v2/pkg/types/cluster.go:387-410 | the doubling reader returns exactly the document iff it is at most 16 MiB, and terminates |
| Cluster.Parse | v2/pkg/types/cluster.go:321-385 | the loop over documents gives the merge of their contributions, or an error |
| Cluster.LoadedConcat | v2/pkg/types/cluster.go:23-30 | loading a concatenation is appending what each part loads to, errors included |
| Cluster.LoadClusterFromFiles | v2/cmd/placemat2/sub/run.go:91-102 | loading several files equals loading one file with all their documents |
| Cluster.LoadedIff | v2/pkg/types/cluster.go:321-385 | loading succeeds iff every document is small enough and accepted |
| Cluster.LoadsIff | v2/pkg/types/cluster.go:53-319 | a file loads iff every document has at most 16777216 bytes and meets the conditions of its kind, spelled out |
| Cluster.LoadedKeepsAll | v2/pkg/types/cluster.go:334-382 | every kind's documents are kept in order and none is lost |
| Cluster.LoadedIsSafe | v2/pkg/vm/node.go:73-80 | every loaded node has smp set and every NAT network an address, so later dereferences are safe |
| Cluster.DefaultsAreLost | v2/pkg/types/cluster.go:201-205 | every volume of an accepted node has a known cache iff the document named one for each, and every raw volume a known format iff the document named one for each of those |
| Cluster.DefaultsAreLostWitness | v2/pkg/types/cluster.go:201-205 | an accepted node whose volume still has no cache, and one whose raw volume still has no format |
| Cluster.DefaultsReturn | v2/pkg/vm/volume.go:22-66 | in every loaded cluster each volume is later given the cache and format that validation had put into its copy, and none is refused for them |
| Numa.NumaRanges | v2/pkg/vm/qemu.go:144-149 | the loop emits one range per NUMA node, for any CPU count, and none without nodes |
| Numa.EachCpuOnce | v2/pkg/vm/qemu.go:144-149 | exactly the CPUs from 0 to below nodes * (cpus / nodes) are covered, each by one range |
| Numa.RangesNonEmptyIff | v2/pkg/vm/qemu.go:144-149 | ranges are equally long and contiguous from 0; all non-empty iff cpus >= nodes, otherwise all empty |
| Numa.LeftOver | v2/pkg/vm/qemu.go:144-149 | fewer CPUs than nodes are left over, none iff nodes divides cpus, also for negative counts |

## Left out

- Real SHA-1, HMAC and AES: parameters with the shapes and, where stated, the inverse law of the real ones.
- Sockets, TLS, certificates, HTTP routing, basic authentication and the fixed Redfish documents.
- QMP exchange, QEMU and swtpm processes, taps, network namespaces and netlink calls.
- Concurrent handling of IPMI and Redfish requests: power requests are served one at a time.
- Power.FrontEndsAgree: compares commands that stand for the same wish; pulse, soft shutdown, PushPowerButton, Nmi and unnamed reset types do nothing on either side.
- The named but unserved IPMI commands: one error case.
- Contents of error messages and log output; error kinds are kept.
- A panic is the end of a run: what the process supervisor does afterwards is not modelled.
- iptables itself: chains as rule sequences with create, append, delete first match, flush or create, and delete if empty and unreferenced; of the conditions only interfaces without wildcards, sources and destinations.
- NatTraffic.TrafficAfterSetup: a jump of the host's own rules to a chain other than PLACEMAT counts as decided there.
- Opening the iptables library (`newIptables`): when that fails no rule is touched.
- The YAML decoder and the framing of documents: a decoder function, and a reader that hands out as much of a document as fits. An empty document is assumed to decode to no kind.
- Cluster.Parse: resource fields that neither validation nor loading looks at are not modelled.
- Byte encodings of text: lines of guests and of consoles are sequences of characters. Which colour a log line gets.
- Image cache, decompression, volume files, the REST server, `pmctl2` and command-line flags.
