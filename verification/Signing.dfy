/**
 Signed transcripts: which transcript a signature covers, and what signing consumes.  The
 signature scheme is abstract and works on the hash of the transcript.
 */
module Signing {
  import opened Codec
  import opened Transcript
  import opened Steps

  datatype Purpose = Challenge | EndpointInfo(inSession: bool)

  type Key = nat

  datatype Scheme = Scheme(sign: (Key, Bytes) -> Bytes, verify: (Key, Bytes, Bytes) -> bool)
  {
    /** A signature made with a key verifies under that key. */
    ghost predicate Correct()
    {
      forall k: Key, digest: Bytes :: verify(k, digest, sign(k, digest))
    }
  }

  datatype Verdict = Accepted | Rejected | NoVerificationKey | NoTranscript

  /** The ordinary transcript of a purpose, or its encapsulated (mutual) counterpart. */
  function SignedChannel(purpose: Purpose, isMut: bool): (ch: Channel)
  {
    match purpose
    case Challenge => if isMut then MutM1M2 else M1M2
    case EndpointInfo(false) => if isMut then EncapIL1IL2 else IL1IL2
    case EndpointInfo(true) => if isMut then SessEncapIL1IL2 else SessIL1IL2
  }

  /** The transcript that covers what the given role sends. */
  function SignChannel(purpose: Purpose, isRequester: bool): (ch: Channel)
  {
    SignedChannel(purpose, isRequester)
  }

  /** The transcript that covers what the given role receives. */
  function VerifyChannel(purpose: Purpose, isRequester: bool): (ch: Channel)
  {
    SignedChannel(purpose, !isRequester)
  }

  /** The messages reset when a transcript has been used. */
  function ConsumeRecorded(r: Recorded, ch: Channel): (r': Recorded)
  {
    r.(buf := if HasTwo(ch) then r.buf[First(ch) := []][Second(ch) := []] else r.buf[First(ch) := []])
  }

  function ConsumeRunning(s: Running, ch: Channel): (s': Running)
  {
    s.(dig := s.dig - {Digest(ch)})
  }

  // What a signature covers, message by message.

  /**
   A Responder signs CHALLENGE_AUTH over A, B and C, and a Requester over MutB and MutC, behind A since
   SPDM 1.2.  ENDPOINT_INFO is signed over A and E, or EncapE by a Requester, of its own scope.
   */
  function SignatureInput(setup: Setup, com: Common, buf: Buffers, purpose: Purpose, byRequester: bool): (r: Bytes)
  {
    match purpose
    case Challenge =>
      if !byRequester then com.a + (buf[B] + buf[C])
      else if setup.version >= 0x12 then com.a + (buf[MutB] + buf[MutC])
      else buf[MutB] + buf[MutC]
    case EndpointInfo(inSession) =>
      if byRequester then com.a + buf[if inSession then SessEncapE else EncapE]
      else com.a + buf[if inSession then SessE else E]
  }

  /** The messages after the signature was made or verified: what it covered is reset, and no more. */
  function AfterUse(buf: Buffers, purpose: Purpose, byRequester: bool): (r: Buffers)
  {
    match purpose
    case Challenge => if byRequester then buf[MutB := []][MutC := []] else buf[B := []][C := []]
    case EndpointInfo(inSession) =>
      if byRequester then buf[(if inSession then SessEncapE else EncapE) := []]
      else buf[(if inSession then SessE else E) := []]
  }

  /** The message whose digest the running form finalises: the last one the signature covers. */
  function LastCovered(purpose: Purpose, byRequester: bool): (m: Message)
    ensures Signed(m)
  {
    match purpose
    case Challenge => if byRequester then MutC else C
    case EndpointInfo(inSession) =>
      if byRequester then if inSession then SessEncapE else EncapE
      else if inSession then SessE else E
  }

  /** The transcript that is signed and verified is that input, and using it resets those messages. */
  lemma SignatureCovers(setup: Setup, r: Recorded, purpose: Purpose, byRequester: bool)
    ensures var ch := SignChannel(purpose, byRequester);
            && ch == VerifyChannel(purpose, !byRequester) == ChannelOf(LastCovered(purpose, byRequester))
            && Assembled(setup, r.com, r.buf, ch) == SignatureInput(setup, r.com, r.buf, purpose, byRequester)
            && ConsumeRecorded(r, ch) == r.(buf := AfterUse(r.buf, purpose, byRequester))
  {
    AssembledBytes(setup, r.com, r.buf);
  }
}
