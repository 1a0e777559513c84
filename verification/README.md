# An NFS client stack, from bytes to directory trees

A Dafny model of the client-side NFS stack and proofs about it, bottom-up: every layer is used by the next one
through its contracts only.

- `wire.dfy`, `xdr.dfy`, `schema.dfy`: XDR (RFC 4506).  `Put...(x, k)` is the wire form of `x` with any bytes `k`
  behind it and `Take...(s)` splits a value off the front of `s`; encoder and decoder are classes that work on a
  buffer and a cursor, and their methods are proved against these two kinds of functions.
- `rpc.dfy`, `transport.dfy`: call messages, record marking and the client that matches replies to calls by order
  (RFC 5531).  A socket may move any number of bytes per call, the peer may cut a record into any fragments, and
  the connection may break at any byte.
- `bitmap.dfy`, `attr.dfy`, `unknown_attr.dfy`: attribute bitmaps and attribute values.
- `ops.dfy`, `results.dfy`, `session.dfy`: the operations of NFSv4.0 and v4.1, a server's parser of them, and the
  decoders of their results.
- `paging.dfy`, `compound.dfy`, `client40.dfy`, `client41.dfy`: COMPOUND and the two clients, with open sequence
  ids, retries, slot sequence ids and listings in pages.
- `owner.dfy`: the open-owner of a v4.0 server, and when it stays in step with the client.
- `replies.dfy`, `filetree.dfy`, `objects.dfy`, `namespace.dfy`, `wholestack.dfy`: whole replies, directory trees, their
  objects with attributes, contents and state ids, a server that runs operation lists on them, and whole runs from the
  calls to what they return.
- `effects.dfy`, `opening.dfy`, `setup.dfy`: what the calls on an object do to each other, opening a file with its retries
  and its confirmation, and how a client and a session come about.
- `steps.dfy`, `removal.dfy`: lookups, listings and removes in any order on one connection, and recursive removal over
  it.
- `nfs3.dfy`, `listing3.dfy`, `mount.dfy`: the parts of NFSv3 and of the MOUNT protocol with structure of their own.

The client's side names its constants as the original does.  The server's side, parsers and machines alike, writes the
numbers of the protocol out, so that a wrong constant of the client is not understood.

## Main results

1. Exactly once: whatever a v4.1 client has done, a server that reads the bytes on the connection, keeps one slot and
   refuses nothing has executed a beginning of the issued requests, each once and in order
   (`Client41.ExactlyOnceOnTheWire`).  With refusals there is an exact condition, see below.
2. Open sequence ids: in what a server reads from a v4.0 client, ids start at 1 and go up by one, and only an
   identical request repeats one (`Client40.SeqidsOnTheWire`, `Client40.SeqidsConsecutive`).
3. Meaning: running the operation list of a call on a server with a current and a saved filehandle is the one change
   that the call is for, with its attributes, state id, range and access (`Namespace.RunsAsWanted`), and over any run
   the tree stays a tree (`Namespace.WholeRun`, `FileTrees.AllReachable`).  Attributes that are set are shown, and bytes
   that are written are read (`Effects.MadeShows`, `Effects.ChangeShows`, `Effects.WriteThenRead`).
4. The whole stack: if a server parses what arrives on a connection, runs it and answers, each call of the client
   returns what was wanted of it on the state that the calls before it left (`WholeStack.RunReturns`); this rests on
   `Compounds.RequestsArrive`, `Transport.CallsArrive` and the order of records (`Transport.RepliesInOrder`).
5. Opening: if a server runs what is sent and answers, and opening a file succeeds, then its state id is one that the
   server knows, for the object of its handle, with the access asked for, and confirmed (`Opening.OpenedOnServer`).
   A client or a session starts with the ids that the server gave out (`Setup.ClientStarts`, `Setup.SessionStarts`).
6. Listings are complete against a server that cuts its list anywhere and takes a cookie only with its own verifier
   (`Paging.ListingComplete`), with replies that both v4 clients and both v3 procedures read (`WholeStack.ReadDirLists`,
   `WholeStack.ReadDirLists41`, `Listing3.DirectoryListed`, `Listing3.DirectoryListedPlus`).
7. Recursive removal over a connection: if the server parses what arrives, runs it and answers, the removal takes
   exactly the subtree, or stops inside it, with the exact condition for success (`Removal.RemoveTree`).  Whatever the
   server does, the removal ends, and what it sent is known.
8. The chain of attribute reads refines a table-driven reader on every byte string (`Attributes.DecodeAttrlist`).

## Where the code falls short of a law

Each is stated as an equivalence.

- The v4.1 client counts a request before it knows whether SEQUENCE will take it.  SEQUENCE may refuse one and leave
  the slot as it was, because it is too big or the server is busy; the next request is then misordered
  (`Client41.OutOfStep`).  The requests that are let through are all executed exactly when each has a multiple of
  2^32 refusals before it (`Client41.ExactlyOnceIff`), which below 2^32 requests means that once one is refused so are
  all that follow (`Client41.OnceRefused`): what is executed is what was issued before the first refusal
  (`Client41.StuckAfterRefusal`).
- OPEN, OPEN_CONFIRM and CLOSE take their ids from one open-owner (section 9.1.7 of RFC 7530).  The v4.0 client counts
  an OPEN even if the server never comes to it, because PUTFH fails before it; the next one is then refused
  (`OpenOwners.IdLost`, `OpenOwners.StaleHandleStops`).  And it does not count a CLOSE but sends the id of the file
  again.  Such an id is never new (`OpenOwners.CloseNeverNew`): opening and closing one file is enough to have the
  CLOSE taken for the OPEN (`OpenOwners.OpenThenClose`).  The exact condition, for fewer than 2^32 OPEN and OPEN_CONFIRM
  requests, is that no id is lost and no CLOSE is counted (`OpenOwners.InStepIff`, `OpenOwners.InStepOnTheWire`); where
  no CLOSE is counted, for any number of requests, that between two ids that are taken exactly one new one went by,
  modulo 2^32 (`OpenOwners.InStepWithoutClose`).
- An OPEN that is refused in the grace period is sent again with the same id.  It gets through exactly when the server
  has not taken the id of an attempt before the period ends (`OpenOwners.GraceIff`); otherwise the refusal is all that
  ever comes back (`OpenOwners.RefusedForGood`).  NFS4ERR_GRACE is not among the errors that leave the id as it was.
- The cast of sizes to 32 bits: opaque data comes back only below 2^32 bytes (`XdrSchema.OpaqueRoundTripIff`), a
  record only below 2^31 (`Transport.RecordArrivesIff`).
- Padding is never checked, so re-encoding gives the same bytes only if the padding was zero
  (`XdrSchema.ReencodeIff`).
- A value for an attribute id outside the table takes no bytes in the reader.  `Attributes.UnknownIdMisread` is a
  reply that is misread; `UnknownAttributes.UnknownIdIff` says exactly for which bitmaps no values can do harm.
- A delegation of type 3, which exists in v4.1 only (section 18.16 of RFC 8881), is not skipped
  (`OpResults.OpenAligned`).  A reply to OPEN is read right and used up exactly when its delegation is not of this type
  (`Replies.ReadIff`).  What is read instead depends on the flag that is there for two of the reasons: without it,
  opening the file fails with status 10; if it is not 0, with the flag as the status; if it is 0, the client gets ten
  bytes of other fields as the handle (`Replies.OpenReply41Read`, `Replies.WrongHandle`), which are the server's handle
  for one handle only (`Replies.MisreadIsWrong`), or runs out of bytes if the server's handle is empty.
- A channel with an RDMA value in the reply to CREATE_SESSION leaves the cursor short of the end
  (`SessionResults.CreateSessionAligned`); nothing is read behind it, and the session id is still right.
- A directory whose type the server does not report is removed as if it were a file, which fails if it is not empty
  (`Removal.RemoveTree`).

## Where the code differs from a standard

Modelled as the code has it; each is in the contract of the member named.

- CLOSE sends the id of the file again and takes no new one: `Client40.Nfs4Client.Close`, `OpenOwners.CloseNeverNew`.
- The retry in the grace period repeats the open id: `Client40.Nfs4Client.RetryOpen`, `OpenOwners.GraceIff`.
- The ids of the times to set are 64 and 65, not 48 and 54: `Attributes.SettableBitsAreIds`.
- Operation codes in results are not looked at: `OpResults.CheckOpStatus`.
- EXCHANGE_ID carries the flag 0x20000, which is named for the use without pNFS; section 18.35 of RFC 8881 has 0x10000
  for that and 0x20000 for a metadata server: `Ops.EncodeExchangeId`.

## Model

| member | source | states |
|---|---|---|
| `Wire.BigEndian` | src/xdr/xdr.cpp:7-12 | read as a base-256 number, most significant byte first, the bytes are the value again |
| `Wire.BigEndianUnique` | src/xdr/xdr.cpp:39-47 | any byte string is the wire form of the number it denotes, so a word has one wire form |
| `Wire.WordBytes` | src/xdr/xdr.cpp:7-12 | the shifts and masks of the encoder give the four base-256 digits, for every 32-bit value |
| `Wire.WordNumber` | src/xdr/xdr.cpp:39-47 | the shifts of the decoder add up to the base-256 number of four bytes |
| `Wire.PutU32` | src/xdr/xdr.cpp:7-12 | the decoder takes exactly the word back and stops where the following bytes begin |
| `Wire.PutU64` | src/xdr/xdr.cpp:14-17 | the decoder takes exactly the double word back and stops where the following bytes begin |
| `Wire.LongBytes` | src/xdr/xdr.cpp:14-17 | a double word is one number of eight bytes, most significant first |
| `Wire.PutFixed` | src/xdr/xdr.cpp:26-30 | fixed-length data of any size comes back, with its padding consumed |
| `Wire.PutOpaque` | src/xdr/xdr.cpp:19-24 | variable-length data below 2^32 bytes comes back, with its padding consumed |
| `Xdr.XdrEncoder.PutU32` | src/xdr/xdr.cpp:7-12 | whatever bytes come next, the buffer grows by the wire form of the word; 4-alignment is kept |
| `Xdr.XdrEncoder.PutU64` | src/xdr/xdr.cpp:14-17 | the buffer grows by the wire form of the double word; 4-alignment is kept |
| `Xdr.XdrEncoder.PutOpaque` | src/xdr/xdr.cpp:19-24 | the buffer grows by length, data and zero padding; 4-alignment is kept |
| `Xdr.XdrEncoder.PutFixed` | src/xdr/xdr.cpp:26-30 | the buffer grows by data and zero padding; 4-alignment is kept |
| `Xdr.XdrDecoder.Require` | src/xdr/xdr.cpp:34-37 | fails with underflow exactly when fewer bytes are left |
| `Xdr.XdrDecoder.GetU32` | src/xdr/xdr.cpp:39-47 | on any buffer: the value and the cursor are those of the front word, or underflow; the cursor never moves back or out of bounds |
| `Xdr.XdrDecoder.GetU64` | src/xdr/xdr.cpp:49-53 | the same for a double word |
| `Xdr.XdrDecoder.GetOpaque` | src/xdr/xdr.cpp:55-64 | the same for variable-length data, padding included |
| `Xdr.XdrDecoder.GetFixed` | src/xdr/xdr.cpp:71-79 | the same for fixed-length data, padding included |
| `Xdr.XdrDecoder.GetRemaining` | src/xdr/xdr.cpp:81-85 | returns all that is left and leaves nothing |
| `XdrSchema.ItemsRoundTrip` | src/xdr/xdr.cpp:7-85 | any list of mixed items, read with its own schema, comes back and the cursor stops at the suffix |
| `XdrSchema.OpaqueRoundTripIff` | src/xdr/xdr.cpp:19-24 | because the length is cast to 32 bits, data comes back if and only if it is shorter than 2^32 bytes |
| `XdrSchema.ReencodeIff` | src/xdr/xdr.cpp:55-79 | a decoded item encodes back to the bytes it was read from if and only if its padding was zero |
| `Rpc.AuthSysRoundTrip` | src/rpc/rpc_client.cpp:68-79 | a server reads every field of an AUTH_SYS credential, for any machine name and any list of groups |
| `Rpc.CredRoundTrip` | src/rpc/rpc_client.cpp:68-88 | AUTH_NONE and AUTH_SYS credentials are told apart and read back whole |
| `Rpc.CallRoundTrip` | src/rpc/rpc_client.cpp:54-93 | a server reads back xid, program, version, procedure, credential and exactly the argument bytes |
| `Rpc.BuildCallMessage` | src/rpc/rpc_client.cpp:54-93 | the message is the wire form of the call with all its fields |
| `Rpc.EncodeCred` | src/rpc/rpc_client.cpp:68-88 | the credential, or the empty one of the verifier, is appended whatever follows |
| `Rpc.AuthSysBody` | src/rpc/rpc_client.cpp:68-79 | the body is the wire form of the credential and nothing else |
| `Transport.PutFragments` | src/rpc/rpc_client.cpp:146-188 | however a peer cuts a record, empty fragments included, its reader gets the joined data and stops behind the last fragment |
| `Transport.PutRecord` | src/rpc/rpc_client.cpp:95-107 | a payload below 2^31 bytes comes back from its framed form, whatever follows |
| `Transport.RecordArrivesIff` | src/rpc/rpc_client.cpp:95-107 | a framed payload comes back if and only if it is shorter than 2^31 bytes |
| `Transport.AddRecordMark` | src/rpc/rpc_client.cpp:95-107 | the result is the framed payload with the last-fragment bit set |
| `Transport.PutReply` | src/rpc/rpc_client.cpp:109-132 | an accepted reply with any xid and any verifier gives back exactly its body |
| `Transport.ParseReply` | src/rpc/rpc_client.cpp:109-132 | on every record: the body, or the failure that the first bad field causes |
| `Transport.TcpRpcClient.constructor` | src/rpc/rpc_client.cpp:13-42 | a connection starts with xid 1, no credential and nothing sent |
| `Transport.TcpRpcClient.SetAuthSys` | src/rpc/rpc_client.cpp:44-46 | only the credential of later calls changes |
| `Transport.TcpRpcClient.ClearAuth` | src/rpc/rpc_client.cpp:48-50 | only the credential of later calls changes |
| `Transport.TcpRpcClient.SendAll` | src/rpc/rpc_client.cpp:136-144 | however few bytes each send takes, all are sent in order, or the connection broke after a beginning of them |
| `Transport.TcpRpcClient.RecvFragment` | src/rpc/rpc_client.cpp:153-182 | however few bytes each receive brings, exactly one fragment is consumed |
| `Transport.TcpRpcClient.RecvRecord` | src/rpc/rpc_client.cpp:146-188 | terminates; returns the joined payload of one record and consumes exactly its bytes, or the connection ended inside it |
| `Transport.TcpRpcClient.SendAndReceive` | src/rpc/rpc_client.cpp:197-200 | one message out and one record in; a rejected reply is consumed too |
| `Transport.TcpRpcClient.Call` | src/rpc/rpc_client.cpp:192-201 | the call is logged with the next xid and the current credential; result and connection are those of the exchange |
| `Transport.DeliveredSnoc` | src/rpc/rpc_client.cpp:136-144 | what has been sent stays a beginning of the stream of all messages, all of it unless the connection broke |
| `Transport.ReplyRead` | src/rpc/rpc_client.cpp:109-132 | a message is taken for results if and only if its type is 1, its reply status 0 and its accept status 0; every other one is rejected |
| `Transport.RepliesInOrder` | src/rpc/rpc_client.cpp:192-201 | over any run with one message per call, in records cut anyhow: the k-th call returns the results of the k-th message if it is a reply, accepted and successful, and rejects it otherwise, whatever happened before |
| `Transport.FirstReply` | src/rpc/rpc_client.cpp:192-201 | a call takes one record and leaves the connection to the calls after it |
| `Transport.CallsArrive` | src/rpc/rpc_client.cpp:192-201 | over any run: a server reads exactly the calls that were made, each with all its fields, in order, all of them if the connection still stands |
| `Bitmap.Set` | src/nfs4/nfs4_attr.cpp:7-12 | the bitmap afterwards holds exactly the old ids and the new one; a nonzero last word stays nonzero |
| `Bitmap.Bitmap4.SetId` | src/nfs4/nfs4_attr.cpp:7-12 | the words afterwards are those of the set with the id added |
| `Bitmap.Bitmap4Test` | src/nfs4/nfs4_attr.cpp:14-19 | true if and only if the id is in the set, for every id and every array |
| `Bitmap.TestIsDigit` | src/nfs4/nfs4_attr.cpp:33-37 | an id is in a bitmap if and only if the binary digit of weight 2^(id % 32) of word id / 32 is 1 |
| `Bitmap.BitmapOf` | src/nfs4/nfs4_attr.cpp:33-37 | the bitmap of a list holds exactly the ids of the list and ends in a nonzero word |
| `Bitmap.MakeBitmap4` | src/nfs4/nfs4_attr.cpp:33-37 | the loop builds that bitmap |
| `Bitmap.OnlyTheSetShows` | src/nfs4/nfs4_attr.cpp:33-37 | two id lists give the same words if and only if they hold the same ids: order and repeats do not show |
| `Bitmap.CanonicalUnique` | src/nfs4/nfs4_attr.cpp:33-37 | a set has one array that ends in a nonzero word |
| `Bitmap.PutBitmap` | src/nfs4/nfs4_attr.cpp:21-24 | a bitmap comes back from its wire form |
| `Bitmap.EncodeBitmap4` | src/nfs4/nfs4_attr.cpp:21-24 | appends the wire form of the bitmap |
| `Bitmap.DecodeBitmap4` | src/nfs4/nfs4_attr.cpp:26-31 | on any buffer: the counted words, or underflow |
| `Attributes.WalkPack` | src/nfs4/nfs4_attr.cpp:50-94 | a table-driven reader that walks the bitmap upwards gets back exactly the values that were packed in ascending order, and stops where they end |
| `Attributes.Fattr4RoundTrip` | src/nfs4/nfs4_attr.cpp:43-97 | for every bitmap and all values: the client has exactly the known attributes that were packed, the rest are absent, and the cursor is behind the padded opaque |
| `Attributes.FillIsWalk` | src/nfs4/nfs4_attr.cpp:48-96 | filling a record field by field and collecting a map agree on every byte string, failures included |
| `Attributes.DecodeAttrlist` | src/nfs4/nfs4_attr.cpp:46-96 | the chain of 14 conditional reads computes what the table-driven reader says, on every bitmap and byte string |
| `Attributes.DecodeFattr4` | src/nfs4/nfs4_attr.cpp:43-97 | the same with bitmap and opaque taken off the outer cursor |
| `Attributes.DecodeNfstime4` | src/nfs4/nfs4_types.hpp:114-119 | seconds are the signed reading of 64 bits |
| `Attributes.PutTime` | src/nfs4/nfs4_types.hpp:114-119 | a time before or after 1970 comes back from its two's complement |
| `Attributes.UnknownIdMisread` | src/nfs4/nfs4_attr.cpp:43-97 | a reply on which an id outside the table makes the client read a wrong mode |
| `UnknownAttributes.UnknownIdIff` | src/nfs4/nfs4_attr.cpp:43-97 | a reply with a given bitmap is read right whatever its values are, those of all ids outside the table included, if and only if no attribute that the client shows is behind such an id |
| `Attributes.SettableBitsAreIds` | src/nfs4/nfs4_attr.cpp:100-107 | the bitmap of the attributes to set holds exactly the ids of those that are present, in at most three words |
| `Attributes.Sattr4RoundTrip` | src/nfs4/nfs4_attr.cpp:99-129 | a server that knows this client's ids gets exactly the attributes to set, for all 64 combinations |
| `Attributes.DecodeOfEncode` | src/nfs4/nfs4_attr.cpp:99-129 | the client's own reader finds size, mode, owner and group as set and nothing else; the times come last and are passed over |
| `Attributes.EncodeFattr4` | src/nfs4/nfs4_attr.cpp:99-129 | appends the wire form of the attributes to set |
| `Attributes.EncodeAttrlist` | src/nfs4/nfs4_attr.cpp:109-125 | the buffer holds the present values in ascending id order |
| `Ops.PutStateid` | src/nfs4/nfs4_types.hpp:101-112 | a state id comes back from its 16 bytes |
| `Ops.OpRoundTrip` | src/nfs4/compound.cpp:10-29 | a server reads back every one of the 28 operations with all its arguments and stops where the next one begins |
| `Ops.OpsRoundTrip` | src/nfs4/compound.cpp:22-26 | concatenated operations come back as the list they were |
| `Ops.CompoundRoundTrip` | src/nfs4/compound.cpp:10-29 | a server reads back tag, minor version and operations of a COMPOUND and finds no byte left over |
| `Ops.EncodePutRootFh` | src/nfs4/fh_ops.cpp:8-10 | appends the operation that a server reads back as this one with these arguments, whatever follows |
| `Ops.EncodePutFh` | src/nfs4/fh_ops.cpp:12-15 | appends the operation that a server reads back as this one with these arguments, whatever follows |
| `Ops.EncodeGetFh` | src/nfs4/fh_ops.cpp:17-19 | appends the operation that a server reads back as this one with these arguments, whatever follows |
| `Ops.EncodeSaveFh` | src/nfs4/fh_ops.cpp:21-23 | appends the operation that a server reads back as this one with these arguments, whatever follows |
| `Ops.EncodeLookup` | src/nfs4/lookup.cpp:6-9 | appends the operation that a server reads back as this one with these arguments, whatever follows |
| `Ops.EncodeGetAttr` | src/nfs4/getattr.cpp:7-10 | appends the operation that a server reads back as this one with these arguments, whatever follows |
| `Ops.EncodeAttrRequest` | src/nfs4/nfs4_attr.cpp:39-41 | appends the bitmap of the requested ids |
| `Ops.EncodeAccess` | src/nfs4/access.cpp:6-9 | appends the operation that a server reads back as this one with these arguments, whatever follows |
| `Ops.EncodeStateid4` | src/nfs4/nfs4_types.hpp:101-104 | appends the wire form of the state id |
| `Ops.EncodeOpenNoCreate` | src/nfs4/open.cpp:22-34 | appends the operation that a server reads back as this one with these arguments, whatever follows |
| `Ops.EncodeOpenCreate` | src/nfs4/open.cpp:36-51 | appends the operation that a server reads back as this one with these arguments, whatever follows |
| `Ops.EncodeOpenConfirm` | src/nfs4/open.cpp:93-97 | appends the operation that a server reads back as this one with these arguments, whatever follows |
| `Ops.EncodeClose` | src/nfs4/open.cpp:107-111 | appends the operation that a server reads back as this one with these arguments, whatever follows |
| `Ops.EncodeRead` | src/nfs4/read.cpp:6-12 | appends the operation that a server reads back as this one with these arguments, whatever follows |
| `Ops.EncodeWrite` | src/nfs4/write.cpp:6-14 | appends the operation that a server reads back as this one with these arguments, whatever follows |
| `Ops.EncodeCommit` | src/nfs4/commit.cpp:6-10 | appends the operation that a server reads back as this one with these arguments, whatever follows |
| `Ops.EncodeCreateDir` | src/nfs4/create.cpp:7-13 | appends the operation that a server reads back as this one with these arguments, whatever follows |
| `Ops.EncodeCreateSymlink` | src/nfs4/create.cpp:15-24 | appends the operation that a server reads back as this one with these arguments, whatever follows |
| `Ops.EncodeRemove` | src/nfs4/dirop.cpp:6-9 | appends the operation that a server reads back as this one with these arguments, whatever follows |
| `Ops.EncodeRename` | src/nfs4/dirop.cpp:19-24 | appends the operation that a server reads back as this one with these arguments, whatever follows |
| `Ops.EncodeReadLink` | src/nfs4/readlink.cpp:6-8 | appends the operation that a server reads back as this one with these arguments, whatever follows |
| `Ops.EncodeSetAttr` | src/nfs4/setattr.cpp:7-11 | appends the operation that a server reads back as this one with these arguments, whatever follows |
| `Ops.EncodeReadDir` | src/nfs4/readdir.cpp:7-19 | appends the operation that a server reads back as this one with these arguments, whatever follows |
| `Ops.EncodeRenew` | src/nfs4/open.cpp:122-125 | appends the operation that a server reads back as this one with these arguments, whatever follows |
| `Ops.EncodeSetClientId` | src/nfs4/setclientid.cpp:6-23 | appends the operation that a server reads back as this one with these arguments, whatever follows |
| `Ops.EncodeSetClientIdConfirm` | src/nfs4/setclientid.cpp:38-44 | appends the operation that a server reads back as this one with these arguments, whatever follows |
| `Ops.EncodeExchangeId` | src/nfs4/session41.cpp:8-25 | appends the operation that a server reads back as this one with these arguments, whatever follows |
| `Ops.EncodeCreateSession` | src/nfs4/session41.cpp:78-97 | appends the operation that a server reads back as this one with these arguments, whatever follows |
| `Ops.EncodeSequence` | src/nfs4/session41.cpp:123-135 | appends the operation that a server reads back as this one with these arguments, whatever follows |
| `Ops.EncodeReclaimComplete` | src/nfs4/session41.cpp:155-158 | appends the operation that a server reads back as this one with these arguments, whatever follows |
| `Ops.EncodeDestroySession` | src/nfs4/session41.cpp:169-172 | appends the operation that a server reads back as this one with these arguments, whatever follows |
| `OpResults.ReplyHeaderRoundTrip` | src/nfs4/compound.cpp:31-36 | a reply header with any tag is passed over if its status is 0 and is the error it names otherwise |
| `OpResults.CheckCompoundStatus` | src/nfs4/compound.cpp:31-36 | on any buffer: passes over the header or fails with its status |
| `OpResults.CheckOpStatus` | src/nfs4/fh_ops.cpp:35-41 | the operation code is not looked at; a status other than 0 is the failure |
| `OpResults.DecodeGetFh` | src/nfs4/fh_ops.cpp:51-54 | on any buffer: the handle that the result carries, its status, or underflow |
| `OpResults.DecodeGetAttr` | src/nfs4/getattr.cpp:12-18 | the attributes of the result, its status, or underflow |
| `OpResults.GetAttrRoundTrip` | src/nfs4/getattr.cpp:12-18 | for every bitmap and all values: the client has exactly the attributes that the server sent |
| `OpResults.DecodeAccess` | src/nfs4/access.cpp:11-21 | on any buffer: the supported and the granted rights, a status, or underflow |
| `OpResults.AccessRoundTrip` | src/nfs4/access.cpp:11-21 | supported and granted rights come back, each in its place |
| `OpResults.DecodeRead` | src/nfs4/read.cpp:14-22 | the data; the end-of-file word is dropped |
| `OpResults.ReadRoundTrip` | src/nfs4/read.cpp:14-22 | data of any size comes back whole, with or without the end of the file |
| `OpResults.DecodeWrite` | src/nfs4/write.cpp:16-28 | on any buffer: count, stability and verifier of the result, a status, or underflow |
| `OpResults.WriteRoundTrip` | src/nfs4/write.cpp:16-28 | count, stability and verifier come back, each in its place |
| `OpResults.DecodeSetClientId` | src/nfs4/setclientid.cpp:25-36 | on any buffer: client id and confirmation verifier, a status, or underflow |
| `OpResults.SetClientIdRoundTrip` | src/nfs4/setclientid.cpp:25-36 | client id and confirmation verifier come back |
| `OpResults.DecodeCommit` | src/nfs4/commit.cpp:12-22 | the write verifier |
| `OpResults.PutCommit` | src/nfs4/commit.cpp:12-22 | the write verifier comes back |
| `OpResults.DecodeReadLink` | src/nfs4/readlink.cpp:10-16 | the link text |
| `OpResults.ChangeInfoRoundTrip` | src/nfs4/nfs4_types.hpp:122-126 | any change record is passed over exactly |
| `OpResults.SkipChangeInfo4` | src/nfs4/nfs4_types.hpp:122-126 | on any buffer: passes over one change record or fails |
| `OpResults.CreateRoundTrip` | src/nfs4/create.cpp:26-35 | CREATE with any change record and any attribute set is passed over exactly |
| `OpResults.DecodeCreate` | src/nfs4/create.cpp:26-35 | on any buffer: passes over the result, attribute set included |
| `OpResults.DecodeSetAttr` | src/nfs4/setattr.cpp:13-21 | on any buffer: passes over the result, attribute set included |
| `OpResults.SetAttrRoundTrip` | src/nfs4/setattr.cpp:13-21 | any set of attributes is passed over exactly |
| `OpResults.DecodeRemove` | src/nfs4/dirop.cpp:11-17 | on any buffer: passes over the result |
| `OpResults.DecodeRename` | src/nfs4/dirop.cpp:26-33 | on any buffer: passes over the result with both change records |
| `OpResults.DelegationSkipped` | src/nfs4/open.cpp:68-88 | delegations of types 0, 1 and 2, with either kind of space limit, are passed over exactly; of type 3 the reason word and the flag, which is there for two of the reasons, are left |
| `OpResults.OpenAligned` | src/nfs4/open.cpp:53-91 | state id and flags are read for any attribute set; the cursor stops at the end of the result if and only if the delegation is not of type 3 |
| `OpResults.DecodeOpen` | src/nfs4/open.cpp:53-91 | on any buffer: state id and flags, a status, or underflow |
| `OpResults.DecodeOpenConfirm` | src/nfs4/open.cpp:99-105 | the new state id, a status, or underflow |
| `OpResults.PutStateResult` | src/nfs4/open.cpp:99-120 | the state id that OPEN_CONFIRM or CLOSE returns comes back |
| `OpResults.DecodeClose` | src/nfs4/open.cpp:113-120 | the returned state id is consumed and dropped |
| `OpResults.DecodeStateid4` | src/nfs4/nfs4_types.hpp:106-112 | on any buffer: the state id or underflow |
| `OpResults.Entries4RoundTrip` | src/nfs4/readdir.cpp:32-39 | a linked list of entries of any length, each with any attributes, comes back |
| `OpResults.ReadDirRoundTrip` | src/nfs4/readdir.cpp:21-42 | a page of any length comes back with verifier and end flag, and the cursor is behind it |
| `OpResults.DecodeReadDir` | src/nfs4/readdir.cpp:21-42 | on any buffer the loop ends, with the listed page, a status or underflow |
| `SessionResults.ExchangeIdAligned` | src/nfs4/session41.cpp:27-61 | any owner, scope and list of implementation ids is passed over exactly; client id and sequence are read |
| `SessionResults.DecodeExchangeId` | src/nfs4/session41.cpp:27-61 | on any buffer: client id and sequence, a status, or underflow |
| `SessionResults.CreateSessionAligned` | src/nfs4/session41.cpp:99-119 | the session id is always read; the cursor ends behind the result if and only if neither channel carries an RDMA value |
| `SessionResults.DecodeCreateSession` | src/nfs4/session41.cpp:99-119 | on any buffer: the session id, a status, or underflow |
| `SessionResults.DecodeSequence` | src/nfs4/session41.cpp:137-151 | on any buffer: passes over the result of SEQUENCE or fails with its status |
| `Compounds.CallCompound` | src/nfs4/compound.cpp:10-29 | one COMPOUND call is logged whose arguments are the header with the given count and then the operation bytes |
| `Compounds.EncodeFh` | src/nfs4_client.cpp:71-76 | the empty handle is sent as PUTROOTFH and any other as PUTFH |
| `Compounds.RenameBuffer` | src/nfs4_client.cpp:291-295 | the buffer holds exactly the four operations of a rename |
| `Compounds.CheckFront` | src/nfs4_client.cpp:106-108 | on any reply: header and first result are passed over, or the first bad status is the failure |
| `Compounds.RequestsArrive` | src/nfs4/compound.cpp:10-29 | at any moment of any run: what a server parses out of the bytes sent is a beginning of the list of issued COMPOUNDs, operation by operation, with right counts and no byte left over; all of it if the connection stands |
| `Compounds.Retry` | src/nfs4_client.cpp:151-175 | at least one attempt is made, and a reply is handed on only if its header is good |
| `Client40.SeqidsConsecutive` | src/nfs4_client.cpp:146-146 | over any run the ids of different OPEN and OPEN_CONFIRM requests are 1, 2, 3, ... modulo 2^32: no gap and no reuse |
| `Client40.SeqidsOnTheWire` | src/nfs4_client.cpp:142-202 | the same holds of what a server reads off the connection: an id is repeated only by an identical request |
| `OpenOwners.InStepOnTheWire` | src/nfs4_client.cpp:142-221 | at any moment of any run, with all that a server has read, CLOSE included: every id that it takes is new or repeats its own request if and only if no id of an OPEN is lost and no CLOSE is counted |
| `OpenOwners.InStepIff` | src/nfs4_client.cpp:142-221 | the same for any list of requests with ids in step, below 2^32 of them |
| `OpenOwners.InStepWithoutClose` | src/nfs4_client.cpp:142-202 | for lists of any length in which no CLOSE is counted: if and only if, between two ids that are taken, exactly one new one went by, modulo 2^32 |
| `OpenOwners.OwnerIsLast` | src/nfs4_client.cpp:146-146 | as long as all is fine, the owner remembers the last request whose id was taken |
| `OpenOwners.SameOwner` | src/nfs4_client.cpp:142-221 | requests whose ids are not taken leave no trace in the owner |
| `OpenOwners.CloseNeverNew` | src/nfs4_client.cpp:212-221 | a CLOSE with the id of an earlier OPEN or OPEN_CONFIRM is taken for the last request or refused |
| `OpenOwners.OpenThenClose` | src/nfs4_client.cpp:142-221 | the shortest run of this kind: opening and closing one file |
| `OpenOwners.GraceIff` | src/nfs4_client.cpp:148-173 | an OPEN that is sent again while it is refused in the grace period is run if and only if that period ends before the server has taken its id; otherwise it is still refused after any number of attempts |
| `OpenOwners.RefusedForGood` | src/nfs4_client.cpp:148-173 | once the id of a refused OPEN is taken, every attempt is answered with that refusal |
| `OpenOwners.FollowsIff` | src/nfs4_client.cpp:146-146 | below 2^32 requests that is: no new request goes by unseen between two that are seen |
| `OpenOwners.IdLost` | src/nfs4_client.cpp:146-146 | the shortest run that goes wrong: an OPEN that is not reached, and the one after it is refused |
| `OpenOwners.StaleHandleStops` | src/nfs4_client.cpp:152-162 | a directory handle that names nothing is enough: OPEN is not reached |
| `Client40.FileSeqid` | src/nfs4_client.cpp:182-199 | a returned file carries the last id allocated for it; OPEN used the first and OPEN_CONFIRM, if there was one, the second |
| `Client40.NextRequest` | src/nfs4_client.cpp:189-189 | a request with the next id keeps the ids in step |
| `Client40.RepeatedRequest` | src/nfs4_client.cpp:167-169 | an attempt that repeats the request before it keeps the ids in step |
| `Client40.OtherRequest` | src/nfs4_client.cpp:212-221 | any other request leaves the open ids alone |
| `Client40.Nfs4Client.constructor` | src/nfs4_client.hpp:116-117 | a new client has issued nothing and starts its ids at 0 |
| `Client40.AskClientId` | src/nfs4_client.cpp:36-41 | SETCLIENTID alone in its COMPOUND, and the client id and verifier of the next reply |
| `Client40.ConfirmClientId` | src/nfs4_client.cpp:43-48 | SETCLIENTID_CONFIRM with exactly what SETCLIENTID returned |
| `Client40.Nfs4Client.LookAtRoot` | src/nfs4_client.cpp:57-67 | PUTROOTFH and GETFH, the last request of the start |
| `Client40.Connect` | src/nfs4_client.cpp:80-85 | the whole start of a client: its three requests in order, the first failure, and a client with the id that the server gave |
| `Client40.Nfs4Client.CallCompound` | src/nfs4/compound.cpp:10-29 | exactly the intended operations are issued, with their number in the header |
| `Client40.Nfs4Client.Lookup` | src/nfs4_client.cpp:100-111 | issues exactly the operation list of the call, with minor version 0, and returns what the next reply says |
| `Client40.Nfs4Client.GetAttr` | src/nfs4_client.cpp:113-127 | issues exactly the operation list of the call, with minor version 0, and returns what the next reply says |
| `Client40.Nfs4Client.Access` | src/nfs4_client.cpp:129-138 | issues exactly the operation list of the call, with minor version 0, and returns what the next reply says |
| `Client40.Nfs4Client.Close` | src/nfs4_client.cpp:212-221 | issues exactly the operation list of the call, with minor version 0, and returns what the next reply says, with the seqid of the file |
| `Client40.Nfs4Client.Read` | src/nfs4_client.cpp:225-235 | issues exactly the operation list of the call, with minor version 0, and returns what the next reply says |
| `Client40.Nfs4Client.Write` | src/nfs4_client.cpp:237-247 | issues exactly the operation list of the call, with minor version 0, and returns what the next reply says |
| `Client40.Nfs4Client.Commit` | src/nfs4_client.cpp:249-259 | issues exactly the operation list of the call, with minor version 0, and returns what the next reply says |
| `Client40.Nfs4Client.Mkdir` | src/nfs4_client.cpp:263-275 | issues exactly the operation list of the call, with minor version 0, and returns what the next reply says |
| `Client40.Nfs4Client.Remove` | src/nfs4_client.cpp:277-286 | issues exactly the operation list of the call, with minor version 0, and returns what the next reply says |
| `Client40.Nfs4Client.Rename` | src/nfs4_client.cpp:288-303 | issues exactly the operation list of the call, with minor version 0, and returns what the next reply says |
| `Client40.Nfs4Client.Symlink` | src/nfs4_client.cpp:305-317 | issues exactly the operation list of the call, with minor version 0, and returns what the next reply says |
| `Client40.Nfs4Client.ReadLink` | src/nfs4_client.cpp:319-328 | issues exactly the operation list of the call, with minor version 0, and returns what the next reply says |
| `Client40.Nfs4Client.SetAttr` | src/nfs4_client.cpp:330-341 | issues exactly the operation list of the call, with minor version 0, and returns what the next reply says |
| `Client40.Nfs4Client.ReadDirPage` | src/nfs4_client.cpp:351-361 | one READDIR with the given cookie and verifier |
| `Client40.Nfs4Client.Renew` | src/nfs4_client.cpp:376-383 | issues RENEW with the client id alone |
| `Client40.Nfs4Client.ReadDir` | src/nfs4_client.cpp:345-372 | ends because the connection brings finitely many bytes (a bound for a peer without end is Paging.FewPages); returns the concatenated pages, and each request carried the last cookie seen and the verifier of the page before |
| `Client40.Nfs4Client.RetryOpen` | src/nfs4_client.cpp:150-175 | all attempts of one OPEN are the same request; only NFS4ERR_GRACE leads to another one |
| `Client40.Nfs4Client.ConfirmOpen` | src/nfs4_client.cpp:190-197 | issues OPEN_CONFIRM on the opened handle and returns the new state id |
| `Client40.Nfs4Client.DoOpen` | src/nfs4_client.cpp:142-202 | requests, ids, file and connection are those of the protocol: next id, retries, then OPEN_CONFIRM with the id after if the flag asks for it |
| `Client40.Nfs4Client.OpenRead` | src/nfs4_client.cpp:204-206 | opens with share access 1, reading, and makes no file |
| `Client40.Nfs4Client.OpenWrite` | src/nfs4_client.cpp:208-210 | opens with share access 2, writing, and makes the file if asked to |
| `Client41.ExactlyOnce` | src/nfs41_client.cpp:37-50 | with a server that refuses nothing, however many requests, past the wrap of the ids too: a new slot executes every one, once and in order; none is a replay or misordered |
| `Client41.ExactlyOnceOnTheWire` | src/nfs41_client.cpp:37-50 | the same at any moment of any run, from the bytes sent: a beginning of the issued list is executed, all of it if the connection stands |
| `Client41.OutOfStep` | src/nfs41_client.cpp:40-41 | after one refusal that leaves the slot as it was, the next request is misordered |
| `Client41.ExactlyOnceIff` | src/nfs41_client.cpp:37-50 | whatever SEQUENCE refuses: the requests that are let through are all executed if and only if each has a multiple of 2^32 refusals before it |
| `Client41.OnceRefused` | src/nfs41_client.cpp:37-50 | below 2^32 requests that is: once one is refused, so are all that follow |
| `Client41.StuckAfterRefusal` | src/nfs41_client.cpp:37-50 | what is executed is exactly what was issued before the first refusal |
| `Client41.RefusalsOnTheWire` | src/nfs41_client.cpp:37-50 | both at any moment of any run, from the bytes on the connection |
| `Client41.SequencePrepended` | src/nfs41_client.cpp:40-49 | bytes of SEQUENCE followed by bytes of the operations are the wire form of the list with SEQUENCE in front, count included |
| `Client41.Nfs41Client.constructor` | src/nfs41_client.cpp:84-88 | a new session has issued nothing and its next slot id is 1 |
| `Client41.Nfs41Client.Compound41` | src/nfs41_client.cpp:37-50 | the n-th request of the session carries slot id n modulo 2^32 and the given operations behind SEQUENCE, even if it fails |
| `Client41.Nfs41Client.SendReclaimComplete` | src/nfs41_client.cpp:90-96 | the first request of the session, and how its reply is read |
| `Client41.Nfs41Client.LookAtRoot` | src/nfs41_client.cpp:98-107 | PUTROOTFH and GETFH in the session |
| `Client41.Nfs41Client.Lookup` | src/nfs41_client.cpp:153-165 | the v4.0 operation list, in the session |
| `Client41.Nfs41Client.Rename` | src/nfs41_client.cpp:338-353 | the v4.0 operation list, in the session |
| `Client41.Nfs41Client.Mkdir` | src/nfs41_client.cpp:311-324 | the v4.0 operation list, in the session |
| `Client41.Nfs41Client.Symlink` | src/nfs41_client.cpp:355-368 | the v4.0 operation list, in the session |
| `Client41.Nfs41Client.Remove` | src/nfs41_client.cpp:326-336 | the v4.0 operation list, in the session |
| `Client41.Nfs41Client.GetAttr` | src/nfs41_client.cpp:167-182 | the v4.0 operation list, in the session, and what the next reply says |
| `Client41.Nfs41Client.Access` | src/nfs41_client.cpp:184-194 | the v4.0 operation list, in the session, and what the next reply says |
| `Client41.Nfs41Client.Close` | src/nfs41_client.cpp:256-266 | the v4.0 operation list, in the session, and what the next reply says |
| `Client41.Nfs41Client.Read` | src/nfs41_client.cpp:270-281 | the v4.0 operation list, in the session, and what the next reply says |
| `Client41.Nfs41Client.Write` | src/nfs41_client.cpp:283-294 | the v4.0 operation list, in the session, and what the next reply says |
| `Client41.Nfs41Client.Commit` | src/nfs41_client.cpp:296-307 | the v4.0 operation list, in the session, and what the next reply says |
| `Client41.Nfs41Client.ReadLink` | src/nfs41_client.cpp:370-380 | the v4.0 operation list, in the session, and what the next reply says |
| `Client41.Nfs41Client.SetAttr` | src/nfs41_client.cpp:382-393 | the v4.0 operation list, in the session, and what the next reply says |
| `Client41.Nfs41Client.RetryOpen` | src/nfs41_client.cpp:204-228 | each attempt is the same OPEN in a request of its own, with the next slot id; only NFS4ERR_GRACE leads to another one |
| `Client41.Nfs41Client.DoOpen` | src/nfs41_client.cpp:198-246 | one open id per OPEN; a server that asks for OPEN_CONFIRM is a protocol error |
| `Client41.Nfs41Client.OpenRead` | src/nfs41_client.cpp:248-250 | opens with share access 1, reading, and makes no file |
| `Client41.Nfs41Client.OpenWrite` | src/nfs41_client.cpp:252-254 | opens with share access 2, writing, and makes the file if asked to |
| `Client41.Nfs41Client.ReadDirPage` | src/nfs41_client.cpp:403-414 | one READDIR in the session with the given cookie and verifier |
| `Client41.Nfs41Client.ReadDir` | src/nfs41_client.cpp:397-425 | ends because the connection brings finitely many bytes (a bound for a peer without end is Paging.FewPages); returns the concatenated pages, each asked for in a session request of its own with the last cookie and verifier |
| `Client41.Bootstrap` | src/nfs41_client.cpp:54-82 | EXCHANGE_ID, then CREATE_SESSION with the client id and sequence that it returned; either failure ends it; the calls made are exactly these |
| `Client41.Connect` | src/nfs41_client.cpp:84-110 | the whole start of a session: its four requests in order, the first failure, and a client whose slot ids go on from there |
| `Setup.ClientStarts` | src/nfs4_client.cpp:26-85 | against a server that hands out a client id and a verifier and confirms a client that gives both back: the start succeeds with that client id, and the server has confirmed this client |
| `Setup.SessionStarts` | src/nfs41_client.cpp:54-110 | against a server that makes a session if and only if the client id and the sequence are those it handed out: the start succeeds with that session, both requests in it are executed, and the server knows that there is nothing to reclaim |
| `Replies.FrontRoundTrip` | src/nfs4_client.cpp:106-108 | a good reply header with any tag and the result of PUTFH or PUTROOTFH are passed over exactly |
| `Replies.Front41RoundTrip` | src/nfs41_client.cpp:160-163 | the same with the result of SEQUENCE in between |
| `Replies.LookupReplyRead` | src/nfs4_client.cpp:106-110 | the handle that GETFH returned is read and the reply is used up |
| `Replies.OpenReplyRead` | src/nfs4_client.cpp:176-180 | for any tag, attribute set and delegation: the state id, flags and handle of the server are read and the reply is used up; with type 3, status 10, the flag as a status, a handle of ten bytes of other fields, or underflow, by the reason, the flag and the handle |
| `Replies.ReadIff` | src/nfs4/open.cpp:68-88 | the handle is read and the reply is used up if and only if the delegation is not of type 3 |
| `Replies.MisreadIsWrong` | src/nfs4/fh_ops.cpp:51-54 | the ten bytes are the handle of the server for one handle only |
| `Replies.OpenReply41Read` | src/nfs41_client.cpp:230-235 | the same behind SEQUENCE |
| `Replies.WrongHandle` | src/nfs41_client.cpp:230-245 | a good OPEN whose delegation is withheld for contention, with the flag 0, makes opening succeed with a wrong handle |
| `Replies.CreateReplyRead` | src/nfs4_client.cpp:270-274 | the new handle is read behind any attribute set and the reply is used up |
| `Replies.RemoveReplyRead` | src/nfs4_client.cpp:282-285 | the reply is used up |
| `Replies.RenameReplyRead` | src/nfs4_client.cpp:297-302 | four results and two change records are passed over and the reply is used up |
| `Replies.ReadDirReplyRead` | src/nfs4_client.cpp:358-361 | a page of any length is read and the reply is used up |
| `Replies.ReadDirCarried` | src/nfs4_client.cpp:357-361 | such a page in an RPC reply, cut anyhow, is what the listing loop goes on with |
| `Replies.LookupReply41Read` | src/nfs41_client.cpp:159-164 | behind SEQUENCE: the handle that GETFH returned is read and the reply is used up |
| `Replies.CreateReply41Read` | src/nfs41_client.cpp:318-323 | behind SEQUENCE: the new handle is read behind any attribute set and the reply is used up |
| `Replies.RemoveReply41Read` | src/nfs41_client.cpp:331-335 | behind SEQUENCE: the reply is used up |
| `Replies.RenameReply41Read` | src/nfs41_client.cpp:346-352 | behind SEQUENCE: four results and two change records are passed over and the reply is used up |
| `Replies.ReadDirReply41Read` | src/nfs41_client.cpp:410-414 | behind SEQUENCE: a page of any length is read and the reply is used up |
| `Replies.ReadDirCarried41` | src/nfs41_client.cpp:409-414 | such a page in an RPC reply, cut anyhow, is what the v4.1 listing loop goes on with |
| `Replies.FailedReplyRead` | src/nfs4/compound.cpp:31-36 | a failed reply is its status, whatever is behind it |
| `Opening.RetryReads` | src/nfs4_client.cpp:150-175 | any number of refusals in the grace period are as many retries; the reply behind them decides |
| `Opening.ConfirmFlag` | src/nfs4_client.cpp:188-188 | the mask tests bit 1 of the flags |
| `Opening.OpenReads` | src/nfs4_client.cpp:142-202 | from the bytes of the replies: the file has the handle of OPEN, and the state id and open id of OPEN_CONFIRM if bit 1 of the flags is set, of OPEN if not |
| `Opening.OpenReads41` | src/nfs41_client.cpp:230-246 | in a session bit 1 of the flags is a protocol error, and any other good reply gives the file with handle and state id of OPEN |
| `Opening.OpenIsInUse` | src/nfs4_client.cpp:142-186 | after OPEN the state id that was returned stands for the object found or made, with the access, client and owner of the call |
| `Opening.OpenedOnServer` | src/nfs4_client.cpp:142-202 | if the server runs what is sent and answers, whatever it chooses, and opening a file succeeds, then its state id is one that the server knows, for the object of its handle, with the access that was asked for, and confirmed |
| `Namespace.RunsAsWanted` | src/nfs4_client.cpp:100-383 | for every call but readdir, on any handles, the root included: running its operations one by one gives the state, the handle, the news and the first error of the one change wanted, attributes, state id, range, access and owner included, and a failed call changes nothing |
| `Namespace.RequestedAreShown` | src/nfs4_client.cpp:113-127 | the attributes that are asked for are exactly type, change, size, file id, mode, link count, owner, group and the three times |
| `Namespace.RunFour` | src/nfs4_client.cpp:288-303 | when RENAME runs, the saved handle is the source directory and the current one the target, and the first handle that does not resolve is the error |
| `Namespace.FhOpSelects` | src/nfs4_client.cpp:71-76 | PUTFH or PUTROOTFH selects what the handle names |
| `Namespace.SequenceFirst` | src/nfs41_client.cpp:37-50 | SEQUENCE in front changes nothing about a run |
| `Namespace.MovedChild` | src/nfs4_client.cpp:288-303 | a successful rename moves one entry and leaves every other entry as it was; only a replaced object disappears |
| `Namespace.AddedChild` | src/nfs4_client.cpp:263-275 | a creation adds one entry and one object and nothing else |
| `Namespace.RemovedChild` | src/nfs4_client.cpp:277-286 | a removal takes away one entry and its object and nothing else |
| `FileTrees.AllReachable` | src/nfs4_client.cpp:263-317 | what is called a tree is one: a path leads from the root to every object |
| `FileTrees.SubIsBelow` | tools/compliance4/runner4.cpp:49-61 | the subtree of an object is what paths lead to from it |
| `Namespace.CallKeepsSound` | src/nfs4_client.cpp:100-383 | every call keeps the tree a tree: no cycles, one entry for every object but the root, none for the root, usable names |
| `Namespace.MoveKeepsRank` | src/nfs4_client.cpp:288-303 | a rename that is not below the object itself leaves no cycle |
| `Namespace.FoundAfter` | src/nfs4_client.cpp:100-111 | a lookup after mkdir or symlink finds the new object, after remove nothing, and after rename what was at the source before |
| `Namespace.MakeThenUnlink` | src/nfs4_client.cpp:263-286 | remove after mkdir or symlink restores exactly the state there was |
| `Namespace.MoveBack` | src/nfs4_client.cpp:288-303 | a rename to a free name and back restores exactly the tree there was |
| `Effects.MadeShows` | src/nfs4_client.cpp:263-317 | a directory or link is made with the attributes of the call: getattr shows them and the type, and readlink returns the target |
| `Effects.ChangeShows` | src/nfs4_client.cpp:330-341 | attributes that were set are those that getattr shows, and nothing but the object has changed |
| `Effects.WriteThenRead` | src/nfs4_client.cpp:225-247 | what a write has taken is what a read of the same range returns, whoever reads |
| `Effects.WriteLeavesOthers` | src/nfs4_client.cpp:237-247 | all other bytes, objects and state ids are as before, and a gap is filled with zeros |
| `Effects.WriteThenFlush` | src/nfs4_client.cpp:237-259 | what was written and committed, or written for stable storage at once, is on stable storage |
| `Effects.AccessKept` | src/nfs4_client.cpp:204-210 | a file that is open for reading only is not written and the other way round |
| `Effects.ClosedIsGone` | src/nfs4_client.cpp:212-221 | after close the state id is good for nothing, and nothing else has changed |
| `Effects.ConfirmedIsNew` | src/nfs4_client.cpp:188-199 | a state id is good for nothing before its confirmation and the old one for nothing after it |
| `Namespace.WholeRun` | src/nfs4_client.cpp:100-383 | over any run of calls, in v4.0 or in a session: each ends as wanted on the state that those before it left, and that holds a tree |
| `WholeStack.EndToEnd` | src/nfs4_client.cpp:100-383 | for every call but readdir, in v4.0 and in a session: from the operations through the server's run and its reply bytes to the caller, the handle and the news that were wanted, or the first error |
| `WholeStack.CredentialsArrive` | src/rpc/rpc_client.cpp:192-201 | of a run of requests a server reads every call with an xid that goes up by one, the credential of the connection, and program, version, procedure and arguments of the request |
| `WholeStack.ReceivedIsSent` | src/nfs4/compound.cpp:10-29 | over a run on one connection a server parses exactly the requests that were made |
| `WholeStack.RunReturns` | src/rpc/rpc_client.cpp:192-201 | over any run on one connection: if the server parses what was sent, runs it and answers in records cut anyhow, the i-th call returns what was wanted of it on the state that the calls before it left |
| `WholeStack.MethodsAsk` | src/nfs4_client.cpp:100-111 | the calls of that run are the v4.0 methods, contract by contract |
| `WholeStack.MethodsAsk41` | src/nfs41_client.cpp:153-165 | and the v4.1 methods |
| `WholeStack.OpenAsks` | src/nfs4_client.cpp:142-202 | out of the grace period and without OPEN_CONFIRM, opening a file is such a call |
| `WholeStack.OpenAsks41` | src/nfs41_client.cpp:198-246 | the same in a session |
| `WholeStack.ReadDirRuns` | src/nfs4_client.cpp:345-372 | READDIR on the machine changes nothing and has the errors that the removal expects |
| `WholeStack.ReadDirLists` | src/nfs4_client.cpp:345-372 | against a server that knows its objects, answers in pages cut anywhere and takes a cookie only with its own verifier: readdir returns each entry once with exactly the attributes that a listing shows |
| `WholeStack.RequestedAreListed` | src/nfs4_client.cpp:353-356 | the attributes that are asked for are exactly type, size, file id, mode and modification time |
| `WholeStack.TypeListed` | tools/compliance4/runner4.cpp:54-54 | an entry has the type 2 if and only if it is a directory whose type is reported |
| `WholeStack.ReadDirLists41` | src/nfs41_client.cpp:397-425 | the same in a session |
| `Removal.RemoveTree` | tools/compliance4/runner4.cpp:49-61 | ends on every connection, having issued exactly the lookups, listings and removes of its log; if each was parsed, run and answered, it succeeds if and only if the target is a directory and no directory below it is both nonempty and without a reported type; then exactly the subtree and its entry are gone; otherwise the error is known, nothing outside the subtree has changed, and nothing at all if the target is no directory |
| `Removal.RemoveEntry` | tools/compliance4/runner4.cpp:52-59 | an entry goes with all below it, or the removal stops inside it; only directories are entered |
| `Steps.LookupTells` | src/nfs4_client.cpp:100-111 | a lookup that is parsed, run and answered returns the handle of the object or the error of the machine |
| `Steps.ReadDirTells` | src/nfs4_client.cpp:345-372 | a listing that is parsed and answered in pages cut anywhere has each entry once, in an order and with dot entries that the caller cannot know, types included where they are reported; of anything but a directory it fails as READDIR of the machine |
| `Steps.CursorSent` | src/nfs4_client.cpp:350-367 | each request has the cookie and the verifier that the pages before it led to, asks for the attributes of a listing, and for 4096 bytes of names and 32768 bytes in all |
| `Steps.RemoveTells` | src/nfs4_client.cpp:277-286 | a remove that is parsed, run and answered succeeds or fails as wanted; a nonempty directory is refused |
| `Steps.StepShrinks` | src/nfs4_client.cpp:345-372 | no call makes the connection bring more, and each lookup that succeeds takes some of it, so that the recursion ends |
| `Steps.InTurn` | tools/compliance4/runner4.cpp:49-61 | steps made one after the other: connection, requests, tree and fair answers are those of the first ones and then of the others |
| `Removal.SeenByEntries` | tools/compliance4/runner4.cpp:55-58 | a subtree can be removed if and only if each entry can |
| `FileTrees.SiblingsApart` | tools/compliance4/runner4.cpp:49-61 | in a tree, what is below two entries of a directory has nothing in common |
| `Removal.OthersUntouched` | tools/compliance4/runner4.cpp:49-61 | removing some entries leaves the subtrees of the others, and whether they can be removed, as they were |
| `Removal.StoppedInside` | tools/compliance4/runner4.cpp:49-61 | a removal that stops at an entry has changed nothing outside the directory |
| `Paging.Collect` | src/nfs4_client.cpp:363-367 | entries are kept in order; the cursor has the cookie of the last one and the verifier of the page |
| `Paging.FetchFinishes` | src/nfs4_client.cpp:350-370 | a listing that succeeds ends with the first page that says it is the last; one that fails has seen no such page |
| `Paging.Complete` | src/nfs4_client.cpp:345-372 | against a server that answers each cookie with any stretch of its list behind it, and takes a cookie only with the verifier of the list: a finished listing is the whole list in order, each entry once |
| `Paging.PageEnd` | src/nfs4_client.cpp:363-367 | a page goes on where the client stands, and the cursor it leads to is one that the server takes |
| `Paging.FewPages` | src/nfs4_client.cpp:345-372 | such a listing takes at most one page more than the list has entries |
| `Paging.ListingComplete` | src/nfs4_client.cpp:345-372 | on a connection that brings such pages in replies cut anyhow, the listing succeeds and is the whole list |
| `Nfs3.Fattr3RoundTrip` | src/nfs/nfs3_types.hpp:101-121 | all 21 words of the attributes are read in place |
| `Nfs3.DecodeFattr3` | src/nfs/nfs3_types.hpp:101-121 | on any buffer: the attributes or underflow |
| `Nfs3.PostOpRoundTrip` | src/nfs/nfs3_types.hpp:149-155 | attributes that may be missing are read back, or passed over, exactly |
| `Nfs3.DecodePostOp` | src/nfs/nfs3_types.hpp:149-155 | on any buffer: the attributes, none, or underflow |
| `Nfs3.PreOpRoundTrip` | src/nfs/nfs3_types.hpp:157-163 | the record before an operation, which may be missing, has one wire form that is passed over exactly |
| `Nfs3.SkipPreOpAttr` | src/nfs/nfs3_types.hpp:159-163 | six words are the size and the two times |
| `Nfs3.WccSkipped` | src/nfs/nfs3_types.hpp:165-169 | all four shapes of the change record are passed over exactly |
| `Nfs3.SkipWccData` | src/nfs/nfs3_types.hpp:165-169 | on any buffer: passes over one change record or fails |
| `Nfs3.Sattr3RoundTrip` | src/nfs/nfs3_types.hpp:123-147 | for all 144 shapes a server reads back every flag, value and time mode, and finds what follows at the right place |
| `Nfs3.Sattr3PrefixFree` | src/nfs/nfs3_types.hpp:123-147 | no wire form of settable attributes is the beginning of another |
| `Nfs3.EncodeSattr3` | src/nfs/nfs3_types.hpp:123-147 | appends the wire form of the attributes |
| `Nfs3.SetAttrArgsRoundTrip` | src/nfs/setattr.cpp:11-23 | a server finds the guard behind attributes of any shape |
| `Nfs3.EncodeSetAttrArgs` | src/nfs/setattr.cpp:11-23 | the arguments are handle, attributes and guard |
| `Nfs3.SymlinkArgsRoundTrip` | src/nfs/symlink.cpp:42-52 | a server finds the target behind attributes of any shape |
| `Nfs3.EncodeSymlinkArgs` | src/nfs/symlink.cpp:42-52 | the arguments are directory, name, attributes and target |
| `Nfs3.SetAttrReplyRead` | src/nfs/setattr.cpp:25-32 | the status is found whatever the change record in front of it holds |
| `Nfs3.DecodeSetAttrReply` | src/nfs/setattr.cpp:25-32 | on any reply: success, the status, or underflow |
| `Nfs3.SymlinkReplyRead` | src/nfs/symlink.cpp:54-69 | the handle is read and all that may follow it is passed over |
| `Nfs3.DecodeSymlinkReply` | src/nfs/symlink.cpp:54-69 | on any reply: the handle, the status, a missing handle, or underflow |
| `Listing3.ReadDirArgsRoundTrip` | src/nfs/readdir.cpp:12-22 | a server reads back handle, cookie, verifier and count |
| `Listing3.EncodeReadDirArgs` | src/nfs/readdir.cpp:12-22 | the arguments are the wire form of these |
| `Listing3.Entries3RoundTrip` | src/nfs/readdir.cpp:41-47 | a linked list of entries of any length comes back |
| `Listing3.TakeEntries3` | src/nfs/readdir.cpp:41-47 | on any bytes the only failure is underflow |
| `Listing3.ReadDir3RoundTrip` | src/nfs/readdir.cpp:24-52 | a page of any length comes back, with or without attributes of the directory |
| `Listing3.ReadDir3Failed` | src/nfs/readdir.cpp:26-33 | a bad reply is its status, with or without attributes in front |
| `Listing3.DecodeReadDirReply` | src/nfs/readdir.cpp:24-52 | on any reply the loop ends, with the page, the status or underflow |
| `Listing3.ReadDirPage` | src/nfs/readdir.cpp:54-61 | one READDIR call with the given cursor |
| `Listing3.ReadDir` | src/nfs/readdir.cpp:63-78 | ends because the connection brings finitely many bytes (a bound for a peer without end is Paging.FewPages); returns the concatenated pages, and each call carried the last cookie and the verifier of the page before |
| `Listing3.ReadDirPlusArgsRoundTrip` | src/nfs/readdirplus.cpp:12-24 | a server reads back handle, cookie, verifier and both counts |
| `Listing3.EncodeReadDirPlusArgs` | src/nfs/readdirplus.cpp:12-24 | the arguments are the wire form of these |
| `Listing3.EntriesPlus3RoundTrip` | src/nfs/readdirplus.cpp:40-57 | a list of any length comes back for every pattern of missing attributes and handles |
| `Listing3.TakeEntriesPlus3` | src/nfs/readdirplus.cpp:40-57 | on any bytes the only failure is underflow |
| `Listing3.ReadDirPlus3RoundTrip` | src/nfs/readdirplus.cpp:26-61 | a page of any length comes back for every such pattern |
| `Listing3.DecodeReadDirPlusReply` | src/nfs/readdirplus.cpp:26-61 | on any reply the loop ends, with the page, the status or underflow |
| `Listing3.ReadDirPlusPage` | src/nfs/readdirplus.cpp:63-71 | one READDIRPLUS call with the given cursor |
| `Listing3.ReadDirPlus` | src/nfs/readdirplus.cpp:73-90 | ends because the connection brings finitely many bytes (a bound for a peer without end is Paging.FewPages); returns the concatenated pages, and each call carried the last cookie and the verifier of the page before |
| `Listing3.DirectoryListed` | src/nfs/readdir.cpp:63-78 | against a server of NFS version 3 that parses the arguments of READDIR and answers the cursor in them: all entries in order, each once |
| `Listing3.DirectoryListedPlus` | src/nfs/readdirplus.cpp:73-90 | the same of READDIRPLUS, with whatever attributes and handles the server gives |
| `Listing3.PageCarried` | src/nfs/readdir.cpp:54-61 | a page in an RPC reply, cut anyhow, is what the listing loop goes on with |
| `Listing3.PlusPageCarried` | src/nfs/readdirplus.cpp:63-71 | a page in an RPC reply, cut anyhow, is what the listing loop goes on with |
| `Mount.GroupsRoundTrip` | src/nfs/mount.cpp:70-73 | a list of groups of any length comes back |
| `Mount.ExportsRoundTrip` | src/nfs/mount.cpp:63-78 | any number of exports with any number of groups each comes back |
| `Mount.TakeExports` | src/nfs/mount.cpp:63-78 | on any bytes the only failure is underflow |
| `Mount.DecodeExports` | src/nfs/mount.cpp:63-78 | on any reply both loops end, with the list of lists or underflow |
| `Mount.ExportList` | src/nfs/mount.cpp:53-79 | one EXPORT call without arguments, and its reply as the list of lists |

## Left out

- Opening the socket, name resolution, the port mapper, `sleep(5)` and verifiers taken from the clock: environment; a
  socket and the verifier are parameters.
- A socket error that goes away by itself: a connection that has broken stays broken in the model, so no call after
  the break succeeds; in the original a later call may go on inside the interrupted record.
- DESTROY_SESSION in the destructor: its encoder is modelled, the call is not.
- NFSv3 operations with a fixed shape (getattr, access, lookup, fsinfo, commit, read, write, rename, mknod, link) and
  MNT and UMNT: straight field lists.
- `NFSClient`, which only forwards; error message texts, an error being its status; command line tools, benchmarks and
  the compliance tests other than the recursive removal.
- Memory limits: a reply that announces a huge array or record makes the original allocate it.
- Client41.ExactlyOnce: is about a server that refuses nothing; `Client41.ExactlyOnceIff` is about any refusals.
- Attributes.Sattr4RoundTrip: is about a server that uses this client's ids 64 and 65 for the times to set.
- Namespace.RunsAsWanted: of the rights that ACCESS reports and the attributes that a new object has by itself the server
  is free to say anything; times, change counters and link counts do not move by themselves; every OPEN has a state id
  of its own, without share reservations or locks; no object has links from two directories; sequence ids are in
  `OpenOwners`.
- Effects.WriteThenFlush: a server that restarts and loses what is not on stable storage is not part of this model; the
  write verifier is passed on and not compared.
- Setup.SessionStarts: sizes and limits of the channels are what the client asks for, whatever the server answers.
- Opening.OpenedOnServer: is about an OPEN that is not refused in the grace period; `Opening.OpenReads` has any number of
  refusals.
- OpenOwners.InStepOnTheWire: which ids a server takes no notice of is given as a list; of its causes only the handle
  that names nothing is traced to the operations (`OpenOwners.StaleHandleStops`).  That a CLOSE whose id is taken is of
  a file that was opened before is an assumption about the caller and the server.
- OpenOwners.GraceIff: is about attempts and their answers; what the loop makes of the replies is in
  `Opening.RetryReads`.
- WholeStack.RunReturns: all calls but readdir, on one connection that carries nothing else; readdir is in `Steps`.
- Removal.RemoveTree: other clients do not change the tree meanwhile.
- Paging.ListingComplete: the list of the server does not change while it is read.
