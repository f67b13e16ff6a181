# A verified model of libnfcemu

libnfcemu emulates an NFC controller and the remote endpoints and tags it can talk to. This project models four linked
parts in Dafny and proves what they keep over all inputs and all runs.

* **The LLCP endpoint** (`Endpoint`, `EndpointProofs`, `EndpointRuns`, `EndpointOrder`, `EndpointNumbers`,
  `EndpointLinks`, `EndpointMeaning`, `EndpointDevice`). 64 x 64 data links with status, sequence variables and a queue of pending PDUs;
  one transmit queue; the flag that says whose turn it is; the SYMM timer. `Endpoint.Step` says what an event does: a
  PDU of the host, a CONNECT or a SNEP put of the user, the timer, and the clearing of all links. A failed assertion
  of the C code makes an event not enabled. The state carries a history (PDUs made, PDUs on the wire, PDUs lost, ...)
  that the C code does not have. `EndpointDevice.RemoteEndpoint` is the endpoint as the C code keeps it, updated in
  place; each of its methods is proved to be the step: the ghost field `now` is the state of the model, and `Valid`
  says that every real field agrees with it.
* **The codec chain** (`Base64`, `Ndef`, `NdefWalk`, `NdefBuild`, `Llcp`, `Delivery`). base64 text becomes NDEF records, a SNEP put
  request and an LLCP I PDU; the other side stores the message and prints its records. The encoder and decoder are
  compared with a bit-string definition of section 4 of RFC 4648; the loops that write into buffers are proved to leave
  exactly the bytes of the specification functions.
* **The NCI controller** (`Controller`, `ControllerDevice`, `Config`). The machine of the device state, the machine of
  the RF state (Figure 10 of NFC Forum NCI 1.0), discovery ids, the active endpoint and interface, and the packed
  configuration store. One device, since the table of endpoints is global.
* **Tag memory** (`TagT1tT2t`, `TagT3t`, `TagT4t`). Messages written into four layouts and read back through the tags'
  own command handlers.

What the specification functions mean is told a second time, without naming them: in bytes and numbers of the
standards (`EndpointMeaning`, `NdefBuild`, the layout lemmas of the tags), or as a relation on states
(`Controller.Allowed`).

Bytes are integers from 0 to 255; shifts and masks are written as divisions and remainders, and every truncation to
8 or 16 bits that can matter is written out. `Bytes` holds what the modules share.

## Where the code is not what one might expect

The model follows the code, and the limits are theorems:

* `encode_base64` leaves out the last digit when its bits are all zero. Encoding and decoding give the input back exactly
  when the input is empty or the bits of the last group are not all zero; otherwise the last byte is lost
  (`Base64.RoundTripIff`, `Base64.EncodeThenDecode`, `Base64.ZeroByteIsLost`). The comment at src/cmdline.c:348-351
  announces base64url; the digits are those of the standard alphabet.
* The writer puts the id before the payload, the reader looks for the payload first (`NdefWalk.FieldsRecoveredIff`,
  `NdefWalk.SwappedRecord`).
* `ndef_create_rec` uses the long layout for short records and the reverse. The later setters repair it; for a short
  record it writes past the header on the way (`Ndef.CreateSpan`, `Ndef.CreateRec`).
* Payload lengths are cut to 8 bits even in long records, so a record is delimited exactly when all its fields are
  shorter than 256 bytes (`NdefWalk.RecLenIff`).
* The budget of 200 bytes for an I PDU does not hold. When the header of a record ends behind it, `len - off`
  (src/cmdline.c:78-80) wraps around, and building goes on up to the end of the buffer. `Delivery.PduKeepsBudgetIff` is
  the exact condition, `Delivery.BudgetIsMissed` an input.
* The length of a queued PDU and of an NCI packet has 8 bits. A PDU that fills its buffer of 256 bytes has length 0: it
  is taken from the queue and never sent (`EndpointRuns.FullBufferIsLost`), and the builder can make one
  (`Delivery.BuiltMessageIsLost`).
* A SNEP response is written six bytes behind the information field (src/nfc-re.c:502-503). What is sent of it is one
  byte, the version, so the host cannot tell success from failure (`EndpointRuns.ResponsesAreAlike`).
* `send_pdu_from_re` sends at once when it is our turn, even if PDUs are queued. `EndpointRuns.MessagesSwap` is a run in
  which two messages change places, `EndpointRuns.ConnectJumps` one in which a CONNECT goes out before older data;
  `EndpointRuns.EntryOrderKeptIff` says when that happens.
* A CC clears the sequence numbers of a link although pending PDUs are numbered already
  (`EndpointRuns.NumbersContinueIff`), and a SNEP response does not advance V(S)
  (`EndpointRuns.ResponseNumberIsReused`).
* A reset keeps the active endpoint and all ids (`Controller.ActiveEndpointStays`).
* For an empty value, CORE_SET_CONFIG passes the offset of a slot where its length is meant (`Config.EmptyValueIff`).
* The assertions in `set_t1t_data` and `set_t2t_data` let messages pass that do not fit; they are `Overrun` in
  `TagT1tT2t.SetT1t` and `TagT1tT2t.SetT2t`.
* `process_t4t` takes every command it does not know for the selection of a file (`TagT4t.UnknownSelects`). A READ
  BINARY for 254 or 255 bytes gives a response longer than the 8-bit length of its packet
  (`TagT4t.PortionArrivesIff`).

## Model

| member | source | states |
|---|---|---|
| EndpointRuns.Conservation | src/nfc-re.c:78-152 | in every run that loses no pending PDU of a link, each PDU of less than 256 bytes ever made for the link is on the wire, in the endpoint's queue or pending on the link, exactly as often as it was made |
| EndpointRuns.FullBufferIsNeverSent | src/nfc-re.c:94-130 | a PDU of 256 bytes, whose 8-bit length is 0, is never sent in any run |
| EndpointRuns.FullBufferIsLost | src/nfc-re.c:110-152 | a concrete run, for every link and every message of 253 bytes: a SYMM goes out in its place and it is in no queue any more |
| EndpointRuns.SmallMessagesFit | src/nfc-re.c:890-958 | if every message of a run has at most 252 bytes, all PDUs made in it have a length in 8 bits |
| EndpointRuns.FirstInFirstOut | src/nfc-re.c:82-103 | in every run that neither loses nor overtakes on a link, the I PDUs on the wire, then those queued, then those pending are the I PDUs made, in the order they were made, where those of 256 bytes are left out |
| EndpointRuns.SentAsEntered | src/nfc-re.c:78-152 | in every run that overtakes nothing on a link, its CONNECT and I PDUs are sent in the order in which they were sent at once, queued, or moved to the queue by a CC |
| EndpointRuns.ConnectLeads | src/nfc-re.c:409-432 | for every attempt to connect, and every continuation of the run without overtaking: the last PDU of the link sent or queued before the CC is the CONNECT of this attempt, and all PDUs pending at the CC follow right behind it in their order |
| EndpointOrder.ConnectAlwaysLeads | src/nfc-re.c:409-432 | in every run, also with overtaking, the PDUs pending at a CC go out in their order behind a CONNECT of the link that was sent or queued before |
| EndpointOrder.NothingIsReordered | src/nfc-re.c:78-152 | in every run, what a link has sent or queued keeps its order for ever; overtaking only inserts, and nothing that fits 8 bits is removed |
| EndpointRuns.ConnectIsFirst | src/nfc-re.c:929-952 | on a link for which the run has no CONNECT of the host and no overtaking, the first PDU sent is a CONNECT |
| EndpointRuns.TurnTaking | src/nfc-re.c:583-591 | in every run the timer is pending exactly while it is our turn, and PDUs sent plus the pending turn never exceed the PDUs processed |
| EndpointRuns.DataLinks | src/llcp.c:138-164 | in every run no link is ever disconnecting, a connected link has nothing pending, and all sequence variables are below 16 |
| EndpointRuns.Numbering | src/nfc-re.c:890-913 | since a link was cleared the n-th I PDU made carries N(S) = n mod 16, and V(R) is the number of I PDUs received mod 16 |
| EndpointNumbers.NumbersOnWire | src/nfc-re.c:890-913 | in every run without loss and overtaking on a link, the I PDUs the host sees that were created since the numbers last started again carry, in order, as N(S) the number of messages made before them, and as N(R) the number of I PDUs the host had sent on the link when they were made, both mod 16 |
| EndpointNumbers.PutsAreNumbered | src/nfc-re.c:890-913 | every I PDU created on a link since its numbers last started again carries these two numbers, counted from the events of the run |
| EndpointNumbers.ReceivedIsCounted | src/nfc-re.c:483-484 | V(R) of a link is the number of I PDUs the host has sent on it since its numbers last started again, mod 16 |
| EndpointNumbers.ResponseNumbers | src/nfc-re.c:500-507 | a SNEP response carries the N(S) of the next message, and as N(R) the number of I PDUs received, with the request |
| EndpointNumbers.ConsecutiveOnWire | src/nfc-re.c:890-913 | so the host sees 0, 1, 2, ... mod 16 from one start of the numbers to the next, if no creator failed |
| EndpointNumbers.LogIsOfPuts | src/nfc-re.c:890-913 | the PDUs that numbering speaks of are those of the puts on the link since its last CC, host CONNECT or clearing, failed ones left out; the last put failed exactly when the log says so |
| EndpointNumbers.PutsAreCreated | src/nfc-re.c:915-958 | the I PDUs of these puts are the last ones created for the link |
| EndpointRuns.ReplyStaysOnLink | src/nfc-re.c:557-592 | a PDU of the host changes only the link its reply belongs to |
| EndpointRuns.ResponseNumberIsReused | src/nfc-re.c:500-506 | a SNEP response and the next I PDU made on its link carry the same N(S) |
| EndpointRuns.ResponsesAreAlike | src/nfc-re.c:500-507 | all SNEP requests on a link that are answered get the same reply, since the code of the response is not among the bytes sent |
| EndpointRuns.NumbersContinueIff | src/nfc-re.c:409-425 | the first number after a CC continues those of the pending PDUs exactly when V(S) was 0 before, or 15 if the message of the last pending PDU could not be made |
| EndpointRuns.OrderKeptIff | src/nfc-re.c:78-105 | sending an I PDU on a connected link keeps the order of creation exactly when it is not our turn or all queued I PDUs of the link equal the new one |
| EndpointRuns.EntryOrderKeptIff | src/nfc-re.c:78-105 | emitting any CONNECT or I PDU keeps the PDUs of its link in the order of entry exactly when it is not our turn or all queued PDUs of the link equal the new one |
| EndpointRuns.MessagesSwap | src/nfc-re.c:82-93 | a concrete run, for every link and every two messages of at most 252 bytes, in which the second message goes out before the first |
| EndpointRuns.ConnectJumps | src/nfc-re.c:82-93 | a concrete run, for every link and every message of at most 252 bytes, in which a CONNECT goes out before data that were queued earlier, so that the last PDU of the connecting link is not its CONNECT |
| EndpointRuns.RunLosesIff | src/nfc-re.c:192-207 | PDUs of a link are lost in a run exactly when a host CONNECT or a clearing met pending ones |
| EndpointRuns.RunJumpsIff | src/nfc-re.c:82-93 | a link counts as overtaken exactly when some request of the user was sent at once while PDUs of the link were queued |
| EndpointRuns.RunInvitedIff | src/nfc-re.c:327-341 | the host counts as having connected a link exactly when the run has a CONNECT for it |
| EndpointLinks.LinksAreIndependent | src/nfc-re.c:314-555 | after every run each of the 64 x 64 links is what its own events make of a single link, whatever happens on the others and whoever's turn it is |
| EndpointLinks.DefaultLink | src/nfc-re.c:276-285 | the link that a put request without SAPs goes to is the one of the last PDU of the host, SYMM left out, since the last clearing |
| EndpointLinks.MessageStays | src/llcp.c:166-177 | a received message stays in its link until data arrive there or the link starts again |
| EndpointProofs.RunKeeps | src/nfc-re.c:78-168 | every state a run reaches satisfies the invariants on links, turns, sizes, conservation, numbering, order and CONNECT |
| EndpointProofs.StepKeeps | src/nfc-re.c:557-592 | every event that is enabled keeps the invariants |
| EndpointProofs.SendPutKeeps | src/nfc-re.c:915-958 | a SNEP put keeps the invariants, whatever the status of the link and whether or not its message can be made |
| EndpointProofs.CcKeeps | src/nfc-re.c:409-432 | moving the pending PDUs behind the queued ones keeps the invariants |
| EndpointProofs.EmitKeeps | src/nfc-re.c:78-105 | sending at once or queueing a CONNECT, or an I PDU of a connected link, keeps the invariants |
| EndpointProofs.InitFirstKeeps | src/nfc-re.c:192-207 | initialising the first n links keeps the invariants |
| EndpointDevice.RemoteEndpoint.ProcessLlcp | src/nfc-re.c:557-592 | in place, a PDU of the host leads to the state of the model; in bytes, a CONNECT is answered with CC and the link is connected and cleared, a DISC with DM and the link is disconnected, an I PDU for SAP 4 with nine bytes, and the others with nothing; it is our turn and the timer runs |
| EndpointMeaning.ProcessMeans | src/nfc-re.c:313-592 | by the number of the type: what a PDU makes of every field of its link, of the queue, the turn, the timer and the SAPs, and that other links stay |
| EndpointMeaning.ReplyMeans | src/nfc-re.c:385-515 | by the number of the type: how many bytes answer a PDU, and which |
| EndpointMeaning.HandledTypes | src/nfc-re.c:561-580 | the nine types that have a handler, and the sizes they are taken with |
| EndpointMeaning.EnabledMeans | src/nfc-re.c:845-860 | when a PDU, a request of the user and the timer may come |
| Endpoint.ConsumedIff | src/nfc-re.c:313-555 | a handler takes no more bytes than the PDU has, except one too many from a CC without options |
| EndpointDevice.RemoteEndpoint.ProcessCc | src/nfc-re.c:409-432 | the loop that drains the pending queue leaves the state of the model |
| EndpointDevice.RemoteEndpoint.ProcessInfo | src/nfc-re.c:475-515 | in place, an I PDU is counted and stored as in the model, and the response packet begins with the reply: header, numbers, five bytes that were there, and the version |
| EndpointDevice.RemoteEndpoint.Respond | src/nfc-re.c:502-507 | the response, with its code, is written six bytes behind the information field, so of what is sent only the last byte is its own |
| EndpointDevice.RemoteEndpoint.SendSnepPut | src/nfc-re.c:915-980 | in place, a put request leads to the state of the model; told by the fields of the link, the I PDU has type 12 and V(S) and V(R) in its first byte, it is sent or waits by the status of the link, and a disconnected link is connected first |
| EndpointMeaning.PutMeans | src/nfc-re.c:890-958 | the link, the queues, the wire, the turn and the timer after a put request, for every status of the link |
| EndpointDevice.RemoteEndpoint.SendLlcpConnect | src/nfc-re.c:845-867 | in place, a CONNECT of type 4 is made and sent or queued, and its link is connecting |
| EndpointDevice.RemoteEndpoint.CreateInfo | src/nfc-re.c:890-913 | the PDU carries V(S) and V(R) of its link; V(S) advances only if the message was made |
| EndpointDevice.RemoteEndpoint.SendPdu | src/nfc-re.c:78-105 | sends at once and cancels the timer when it is our turn, else queues; a packet whose 8-bit length is 0 carries nothing |
| EndpointDevice.RemoteEndpoint.XmitNext | src/nfc-re.c:110-152 | the timer takes the oldest queued PDU and sends it, or SYMM if there is none or its 8-bit length is 0 |
| EndpointMeaning.TimerMeans | src/nfc-re.c:110-152 | the timer takes the oldest queued PDU away and sends it, or SYMM if there is none or it has 256 bytes |
| EndpointMeaning.SentBytes | src/llcp.c:31-69 | the bytes of CONNECT, I and SYMM PDUs |
| EndpointDevice.RemoteEndpoint.ClearRe | src/nfc-re.c:192-207 | the two nested loops initialise every link |
| EndpointDevice.RemoteEndpoint.RecvSnepPut | src/nfc-re.c:982-1002 | prints the records found in the receive buffer of a connected link |
| Base64.RoundTripIff | src/base64.c:53-87 | decoding an encoded byte string gives it back exactly when it is empty or the bits of its last group are not all zero |
| Base64.EncodeThenDecode | src/base64.c:53-156 | decoding an encoded byte string gives it back, or gives it without its last byte |
| Base64.EncodeIsStandardIff | src/base64.c:53-87 | the encoder meets section 4 of RFC 4648 exactly in the first case |
| Base64.StandardByArithmetic | src/base64.c:21-88 | the bit-string definition of the standard agrees with the one by arithmetic on three bytes |
| Base64.StandardAlphabet | src/base64.c:25-48 | the digits are the standard alphabet, and their values its places |
| Base64.BehindDigits | src/base64.c:121-128 | behind the digits of a text `=` hides the rest, and any other character is refused |
| Base64.StandardRoundTrip | src/base64.c:90-156 | the decoder undoes the standard encoding of every byte string |
| Base64.EncodedSize | src/base64.c:53-87 | n bytes give 4 * ceil(n / 3) characters |
| Base64.ZeroByteIsLost | src/base64.c:77 | the byte string 00 encodes to `A===`, which decodes to nothing |
| Base64.EncodeBase64 | src/base64.c:21-88 | the shift and residue loop writes exactly the specified text, and returns its length |
| Base64.DecodeBase64 | src/base64.c:90-156 | the bit-packing loop writes exactly the specified bytes inside the room, or reports what is wrong |
| Base64.Decode | src/base64.c:121-155 | k digits decode to floor(3k / 4) bytes and touch no more than the room |
| Ndef.BuildNdefMsg | src/cmdline.c:49-111 | the serialiser leaves exactly the serialised records in the buffer and returns their length, also behind the budget, where the room wraps around; or it fails as specified |
| NdefBuild.BuiltIff | src/cmdline.c:61-110 | a message is built exactly when its texts are base64 that fits the budget, or behind it the buffer, and short records have at most 255 payload bytes |
| NdefBuild.OneRecordBuilt | src/cmdline.c:61-110 | one record with room for it is built with exactly the user's fields and flags, a long one whatever its length, a short one with more than 255 payload bytes not at all |
| NdefBuild.TypeRefused | src/cmdline.c:78-83 | a type that is not base64 makes the build fail, and one that does not fit an assertion |
| NdefBuild.RecordLayout | src/ndef.c:21-228 | the bytes of a record in all four layouts |
| NdefBuild.LongAndShort | src/ndef.c:21-228 | one record in bytes, long and short |
| NdefBuild.HeaderByte | src/ndef.h:23-33 | the header byte by its bits |
| Ndef.DecodeRecord | src/cmdline.c:61-108 | a record that is decoded has the size its texts say, stays in the buffer, and stays in the budget if its header does |
| Ndef.PutField | src/cmdline.c:78-85 | a field is decoded behind those already there, with the room in `size_t` |
| Ndef.WriteRecord | src/cmdline.c:61-108 | the loop body leaves the bytes of one record, whatever the layout in which its header was created |
| Ndef.CreateRec | src/ndef.c:29-55 | returns the length of the header, and writes flags and zeros in the other layout's extent only |
| Ndef.LayoutsAreSwapped | src/ndef.c:36-53 | a header is created in the layout of the other value of SR |
| Ndef.ViewsTileRecord | src/ndef.c:57-228 | the type starts behind the header, and the views of type, payload and id fill the record |
| Ndef.FlagByteBits | src/cmdline.c:69-72 | every flag and the type name format can be read back from the header byte |
| NdefWalk.BuildThenWalk | src/cmdline.c:49-225 | if every field of a built message is shorter than 256 bytes and the user set neither MB nor ME, the walk ends exactly at its end and shows one record for each given one, made from its texts, MB on the first only and ME on the last only |
| NdefWalk.WalkSerialized | src/cmdline.c:178-225 | walking serialised records anywhere in memory visits each once, ends exactly at their end, and shows what was written |
| NdefWalk.RecLenIff | src/ndef.c:57-64 | the reader finds the end of a record exactly when its three fields are shorter than 256 bytes |
| NdefWalk.RecordSeen | src/ndef.c:94-228 | the reader recovers the type, and payload and id as the two parts of written id and payload |
| NdefWalk.FieldsRecoveredIff | src/ndef.c:147-213 | payload and id are recovered exactly when both orders make the same bytes, so always when the id is empty |
| NdefWalk.SwapIsSeen | src/ndef.c:147-213 | when id and payload have the same length, each is shown in place of the other |
| NdefWalk.SwappedRecord | src/ndef.c:147-213 | a record with id 1 and payload 2 is shown with id 2 and payload 1 |
| NdefWalk.BuiltFlags | src/cmdline.c:69-72 | in a built message MB is on the first record, ME on the last, IL on those with an id, besides the user's own flags; SR and CF are as the user gave them, and so is the type name format |
| NdefWalk.BuiltFields | src/cmdline.c:78-108 | every field of a built message holds the bytes whose standard base64 text the user gave |
| NdefWalk.SmallMessageDescribable | src/cmdline.c:133-148 | in a message of less than 256 bytes every field fits its length byte |
| NdefWalk.WalkRecords | src/cmdline.c:178-225 | the loop prints what the specification of the walk says, and ends with its status |
| NdefBuild.PrintedAsGiven | src/cmdline.c:178-225 | a record without id is printed with the texts it was made from exactly if the encoder can write them |
| NdefBuild.CutShort | src/cmdline.c:190-193 | a message that is cut off inside a record is printed up to this record and reported as too short |
| NdefBuild.LongTextStops | src/cmdline.c:183-204 | the walk stops before printing exactly when a field has more than 384 bytes |
| Llcp.ParsePack | src/llcp.c:31-81 | every PDU is recovered from its packed header |
| Llcp.PackParse | src/llcp.c:31-81 | every packed PDU is recovered from its fields |
| Llcp.HeaderWord | src/llcp.c:31-47 | the header is a word of 6, 4 and 6 bits |
| Llcp.SnepStoresIff | src/llcp-snep.c:26-111 | a SNEP message is stored exactly when it is a put request of a supported version with the right length |
| Llcp.PutRoundTrip | src/snep.c:21-38 | the server takes apart what `snep_create_req_put` wrote, and answers with success |
| Llcp.PutBytes | src/snep.c:21-38 | a put request byte by byte |
| Llcp.AnswerCodes | src/llcp-snep.c:63-111 | the code of the response, by length, version and code of the request |
| Delivery.EndToEnd | src/nfc-re.c:890-913 | whatever records are built, the I PDU is sent exactly when it has less than 256 bytes, within the budget or not; it is accepted by an endpoint in any reachable state, leaves exactly the NDEF message in the link, where the walker shows every record, and its fields are those of the texts |
| Delivery.PduKeepsBudgetIff | src/nfc-re.c:905-906 | the I PDU of a built message keeps to the budget of 200 bytes exactly when no record's header ends behind byte 191 of the NDEF message, which the lengths of the texts tell |
| Delivery.BudgetKeptIff | src/cmdline.c:61-110 | a build that succeeds keeps to its budget exactly when no record's header ends behind it |
| Delivery.BeyondBudget | src/cmdline.c:76-108 | when the first of two records leaves one byte of the budget, the second is built nevertheless, up to the end of the buffer |
| Delivery.BudgetIsMissed | src/cmdline.c:76-108 | two records whose I PDU has 204 bytes |
| Delivery.BufferIsFilled | src/nfc-re.c:94-103 | two records whose I PDU has 256 bytes, so that nothing of it is sent |
| Delivery.BuiltMessageIsLost | src/nfc-re.c:110-152 | the run that loses the message of these records |
| Delivery.PutIsStored | src/nfc-re.c:475-515 | a put request for SAP 4 leaves exactly its information field in the receive buffer |
| Delivery.CreateIPdu | src/nfc-re.c:890-913 | the buffer holds the packed I PDU, also of a message behind the budget, or the creator fails as the build does |
| Delivery.CreateSnepPut | src/cmdline.c:133-148 | the NDEF message and then the header before it make the put request |
| Delivery.BufferIsLargeEnough | src/nfc-re.c:905-906 | if no header ends behind the budget, the end of the buffer is never reached: all buffers larger than the budget give the same message |
| Controller.IdsAreUnique | src/nfc.c:67-76 | in every run the ids in use are pairwise distinct and at most 254, and the lookup of an id finds its only holder |
| Controller.ActiveTogether | src/nfc-nci.c:107-124 | in every run endpoint and interface are active together, the active endpoint has an id, data are accepted exactly in POLL_ACTIVE and then have an endpoint, and W4_ALL_DISCOVERIES has some endpoint with an id |
| Controller.NeverListens | src/nfc-nci.c:1170-1192 | no run reaches a listening state, and while the device is idle so is the RF state |
| Controller.MovesOnly | src/nfc-rf.c:30-49 | the RF state changes only along the poll side of the state diagram, or to idle by a reset |
| Controller.StepsAreAllowed | src/nfc-nci.c:486-1206 | in every reachable state an event leads to a state with an answer exactly if a relation allows it that says, for each event and without the steps of the code, the states it may come in, every field of the state it leads to, and the answer |
| Controller.ActiveEndpointStays | src/nfc-nci.c:486-508 | only a deactivation or a selection changes the active endpoint or takes an id away, a reset does not, and no other endpoint can be activated meanwhile |
| Controller.RunKeeps | src/nfc-nci.c:1001-1020 | every reachable state satisfies the invariant |
| Controller.StepKeeps | src/nfc-nci.c:1063-1206 | every enabled event keeps the invariant |
| Controller.IdentifyKeepsIds | src/nfc-nci.c:1076-1085 | giving an endpoint the next id keeps ids distinct, since no more were handed out since the oldest in use than are in use |
| Controller.InterfaceFound | src/nfc.c:78-128 | which interface serves each endpoint of the emulator, and by which protocol it is selected |
| Controller.FindId | src/nfc-re.c:170-190 | the lookup returns a holder of the id, or none has it |
| ControllerDevice.NfcDevice.GetReById | src/nfc-re.c:170-190 | the loop finds the first holder of the id |
| ControllerDevice.NfcDevice.FindRfFor | src/nfc.c:78-128 | the loop finds the first interface for a protocol and a mode |
| ControllerDevice.NfcDevice.RfTransition | src/nfc-rf.c:30-49 | moves exactly when the present state is one of those given |
| ControllerDevice.NfcDevice.CoreReset | src/nfc-nci.c:486-508 | in place, the step of the model |
| ControllerDevice.NfcDevice.CoreInit | src/nfc-nci.c:383-415 | in place, the step of the model |
| ControllerDevice.NfcDevice.RfDiscover | src/nfc-nci.c:572-601 | in place, the step of the model |
| ControllerDevice.NfcDevice.RfSelect | src/nfc-nci.c:603-654 | in place, the step of the model, with its reasons to reject |
| ControllerDevice.NfcDevice.RfDeactivate | src/nfc-nci.c:677-762 | in place, the step of the model, which Controller.StepsAreAllowed tells by the type of the deactivation; with the loop that takes all ids away |
| ControllerDevice.NfcDevice.ProcessData | src/nfc-nci.c:107-124 | in place, a data packet is accepted by the RF state, which stays, and goes to the active endpoint |
| ControllerDevice.NfcDevice.DiscoveryNtf | src/nfc-nci.c:1063-1121 | in place, the step of the model |
| ControllerDevice.NfcDevice.ActivateRe | src/nfc-nci.c:1123-1206 | in place, the second half of the activation step |
| ControllerDevice.NfcDevice.ActivatedNtf | src/cmdline.c:587-623 | in place, the activation step with the choice of endpoint and interface |
| Config.SetConfigRefinesMap | src/nfc-nci.c:510-544 | the values after a well-formed command are those of a map after its fields, in order: each replaces the front of the value by its own bytes |
| Config.WriteAllRefinesPutAll | src/nfc.c:47-55 | writing accepted fields into the packed array is updating a map from parameters to values |
| Config.LastWriteWins | src/nfc-nci.c:63-75 | what is read after a command is what its packet said: a full value is the last one sent, a shorter one replaces the front, and an empty one zeroes three bytes of parameter 0x29 and nothing else |
| Config.OthersUntouched | src/nfc-nci.c:28-48 | writing other parameters leaves a parameter unchanged |
| Config.SlotsAreDisjoint | src/nfc-nci.c:28-48 | the slots of different parameters do not overlap |
| Config.SlotsArePacked | src/nfc-nci.c:28-48 | the slots fill the first 118 bytes without a gap |
| Config.AcceptedIff | src/nfc-nci.c:63-75 | which fields are accepted |
| Config.StopsAtRefusal | src/nfc-nci.c:523-537 | at the first field that is not accepted the command stops, with the fields before it stored |
| Config.StopsAtEnd | src/nfc-nci.c:523-537 | a command with more fields than its packet stores those that are there |
| Config.EmptyValueIff | src/nfc-nci.c:531-533 | an empty value is accepted for two parameters only, and resets neither completely |
| Config.ConfigStore.SetConfig | src/nfc-nci.c:523-537 | the loop with its 8-bit offset leaves the array that the fields of the packet lead to |
| Config.ConfigStore.Get | src/nfc-nci.c:77-84 | reads the slot of a parameter |
| TagT1tT2t.T1tReadBack | src/nfc-tag.c:85-110 | whatever was in memory, reading all of it and stripping the framing gives the message last set; the uid stays |
| TagT1tT2t.T1tLayout | src/nfc-tag.c:85-110 | the memory of a type 1 tag byte by byte |
| TagT1tT2t.T2tReadBack | src/nfc-tag.c:112-132 | whatever was in memory, three reads of 16 bytes from block 4 on give the message last set |
| TagT1tT2t.T2tLayout | src/nfc-tag.c:112-132 | the memory of a type 2 tag byte by byte |
| TagT1tT2t.SetT1t | src/nfc-tag.c:85-110 | the message and its framing are written in place; longer messages are refused or do not fit |
| TagT1tT2t.SetT2t | src/nfc-tag.c:112-132 | the message and its framing are written in place; longer messages are refused or do not fit |
| TagT1tT2t.Rall | src/nfc-tag.c:244-270 | the response is the header and the whole memory |
| TagT1tT2t.ReadBlock | src/nfc-tag.c:297-322 | the response is 16 bytes from the block on, or fewer at the end of memory, and status 0 |
| TagT1tT2t.BlockReadIs | src/nfc-tag.c:297-322 | which bytes of memory a read gives, also at the end |
| TagT1tT2t.FourReads | src/nfc-tag.c:297-322 | reads at blocks 0, 4, 8 and 12 give the whole memory |
| TagT3t.AttributesStay | src/nfc-tag.c:134-222 | after any formats and messages the checksum is the sum of the bytes before it, LN is the length of the last message, and the message is stored |
| TagT3t.AttributeBytes | src/nfc-tag.c:134-158 | LN, checksum and message byte by byte |
| TagT3t.FormattedBytes | src/nfc-tag.h:381-398 | an empty tag byte by byte |
| TagT3t.ReadBack | src/nfc-tag.c:346-390 | after any operations, LN taken from the packet that answers a Check for block 0, and then the packets that answer Checks for enough blocks in any portions of at most 15, give the last message |
| TagT3t.AnswerIsMemory | src/nfc-tag.c:346-390 | a Check command for up to 15 successive blocks is answered with these blocks |
| TagT3t.BlocksInResponse | src/nfc-tag.c:371-385 | a reader finds the blocks in the response packet: length, code, id, status and number of blocks are in their places |
| TagT3t.CheckAnswers | src/nfc-tag.c:346-390 | up to 15 blocks in range, in any mixture of 2-byte and 3-byte elements, are answered in order, and the command is consumed exactly; more are not |
| TagT3t.GatheredAt | src/nfc-tag.c:357-369 | block number k of the answer is the block that element k asks for |
| TagT3t.ProcessCheck | src/nfc-tag.c:346-390 | the response is in the packet, and the command consumed, with 8-bit indices that do not wrap |
| TagT3t.SetT3t | src/nfc-tag.c:134-158 | LN, checksum and message are written in place |
| TagT3t.Format | src/nfc-tag.c:200-222 | the constants and an empty message are written in place |
| TagT4t.ReadBack | src/nfc-tag.c:446-503 | after a message is set and the NDEF file selected, READ BINARY in any portions of at most 253 bytes that cover the message gives it back |
| TagT4t.ContainerReadBack | src/nfc-tag.c:429-480 | after the container is selected, any portions that cover it give its bytes, which tell a tag with a message from an empty one |
| TagT4t.FileBytes | src/nfc-tag.c:160-174 | the NDEF file byte by byte |
| TagT4t.AppSelects | src/nfc-tag.c:414-427 | the selection of the application is answered with success and changes nothing |
| TagT4t.PortionArrivesIff | src/nfc-nci.c:90-105 | a response fits the 8-bit length of its packet exactly when at most 253 bytes are asked for |
| TagT4t.UnknownSelects | src/nfc-tag.c:505-530 | every unknown command selects the NDEF file or a missing one, whatever it holds besides its sixth and seventh byte |
| TagT4t.NonsenseSelects | src/nfc-tag.c:505-530 | a command that is none at all and selects the NDEF file |
| TagT4t.ReadAcceptedIff | src/nfc-tag.c:447-480 | a read is accepted exactly when a file is selected and contains it |
| TagT4t.Tag.SetT4t | src/nfc-tag.c:160-174 | container, length and message are written in place |
| TagT4t.Tag.ProcessT4t | src/nfc-tag.c:505-530 | in place, the step of the model |

## Left out

- Options of a CONNECT PDU (src/nfc-re.c:346-383): the pointer to the option never advances; MIU and RW of a link are used nowhere else.
- `write_buf` and `read_buf` (src/nfc-re.c:209-270): the sizes start at 0, and a write of any byte is rejected.
- `nfc_re_create_dta_act` and `nfc_create_dta`: nothing calls them. They would be the only other writers of sequence variables.
- PDUs without a handler (AGF, PAX, UI, SNL), and PDUs shorter than the fields their handler reads: such an event is not enabled.
- A data link is a value in the table, not an object; aliasing of links is not modelled, and the C code has none.
- Storage that cannot be allocated, real time, logging, and the tokeniser of the command line.
- Command lines with only one of DSAP and SSAP given as -1.
- Endpoints with other protocols than NFC-DEP: they answer a SNEP put with an error and run the tag handlers.
- Ndef.BuildNdefMsg: when a header or a field leaves the buffer itself, the outcome is `PastBuffer`, and what is written there is not modelled.
- TagT1tT2t.SetT1t: what a message of 90 to 95 bytes writes behind the data area is not modelled; the outcome is `Overrun`.
- TagT1tT2t.SetT2t: what a message of 46 or 47 bytes writes behind the data area is not modelled; the outcome is `Overrun`.
- NdefWalk.WalkRecords: a record that reaches behind the memory is the outcome `Overread`; the bytes C would read there are not modelled.
- TagT3t.ProcessCheck: more than 15 blocks, block numbers outside of memory and commands that are cut off read or write outside of their buffers in C; they are one outcome without a response.
- Config.ConfigStore.SetConfig: the notification that is sent for the I93 data rate is left out; it does not change the store. Fields outside of the packet end the loop.
- Formatting of type 1 and type 2 tags writes constants, and is left out.
- TagT4t.Tag.ProcessT4t: the selected file is global in C; there is one type 4 tag, and it is a field of it here.
- NFCEE and HCI commands, T3T polling, and responses that are constants.
