/** The chat frame exchanged with every client, and the notices the relay
    itself generates when a client joins or leaves. */
module Messages {

  /** One chat frame. `kind` is the JSON field `type`: a free string that the
      relay passes through unchanged (the web client sends "message"). */
  datatype Message = Message(kind: string, content: string, username: string)

  /** The sender name of every notice the relay generates. */
  const SYSTEM_NAME: string := "System"
  const JOIN_KIND: string := "join"
  const LEAVE_KIND: string := "leave"
  const JOINED_SUFFIX: string := " joined the chat"
  const LEFT_SUFFIX: string := " left the chat"

  /** The notice announcing that a client called `username` has registered. */
  function JoinNotice(username: string): Message
  {
    Message(JOIN_KIND, username + JOINED_SUFFIX, SYSTEM_NAME)
  }

  /** The notice announcing that the client called `username` has left. */
  function LeaveNotice(username: string): Message
  {
    Message(LEAVE_KIND, username + LEFT_SUFFIX, SYSTEM_NAME)
  }

  /** A frame read from a client, with its sender set to that client's
      registered name whatever the frame claimed. */
  function Stamp(msg: Message, username: string): Message
  {
    msg.(username := username)
  }

  /** Every frame of `frames`, stamped with `username`, in order. */
  function StampAll(frames: seq<Message>, username: string): seq<Message>
  {
    seq(|frames|, i requires 0 <= i < |frames| => Stamp(frames[i], username))
  }

  /** Stamping frame by frame distributes over concatenation. */
  lemma StampAllAppend(a: seq<Message>, b: seq<Message>, username: string)
    ensures StampAll(a + b, username) == StampAll(a, username) + StampAll(b, username)
  {
    var l, r := StampAll(a + b, username), StampAll(a, username) + StampAll(b, username);
    assert |l| == |r|;
    forall i | 0 <= i < |l|
      ensures l[i] == r[i]
    {
      if i < |a| {
        assert (a + b)[i] == a[i];
      } else {
        assert (a + b)[i] == b[i - |a|];
      }
    }
  }

  /** Stamping keeps the type and the text, and the name the client put in
      the frame has no influence on the result. */
  lemma StampOverridesClaimedName(msg: Message, claimed: string, username: string)
    ensures Stamp(msg, username).kind == msg.kind
    ensures Stamp(msg, username).content == msg.content
    ensures Stamp(msg, username).username == username
    ensures Stamp(msg.(username := claimed), username) == Stamp(msg, username)
  {
  }

  /** Two strings that agree once the same suffix is appended are equal. */
  lemma SuffixCancels(u: string, v: string, suffix: string)
    requires u + suffix == v + suffix
    ensures u == v
  {
    assert |u| == |v|;
    assert u == (u + suffix)[..|u|];
    assert v == (v + suffix)[..|v|];
  }

  /** A join notice names its client: different names give different notices. */
  lemma JoinNoticeInjective(u: string, v: string)
    ensures JoinNotice(u) == JoinNotice(v) ==> u == v
  {
    if JoinNotice(u) == JoinNotice(v) {
      SuffixCancels(u, v, JOINED_SUFFIX);
    }
  }

  /** A leave notice names its client: different names give different notices. */
  lemma LeaveNoticeInjective(u: string, v: string)
    ensures LeaveNotice(u) == LeaveNotice(v) ==> u == v
  {
    if LeaveNotice(u) == LeaveNotice(v) {
      SuffixCancels(u, v, LEFT_SUFFIX);
    }
  }

  /** A join notice is never a leave notice, whoever they are about. */
  lemma JoinIsNotLeave(u: string, v: string)
    ensures JoinNotice(u) != LeaveNotice(v)
  {
    assert JoinNotice(u).kind[0] == 'j' != 'l' == LeaveNotice(v).kind[0];
  }

  /** A frame stamped with a name other than "System" is never mistaken for
      a notice of the relay. */
  lemma StampedFrameIsNotNotice(msg: Message, username: string, subject: string)
    requires username != SYSTEM_NAME
    ensures Stamp(msg, username) != JoinNotice(subject)
    ensures Stamp(msg, username) != LeaveNotice(subject)
  {
  }

  /** Usernames are not validated, so a client registered as "System" that
      sends a frame of type "join" produces exactly the relay's own join
      notice about someone else. */
  lemma SystemNamedClientForgesNotice(subject: string)
    ensures Stamp(Message(JOIN_KIND, subject + JOINED_SUFFIX, ""), SYSTEM_NAME) == JoinNotice(subject)
  {
  }
}
