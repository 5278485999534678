// server/controllers/conversationController.js: direct conversations between
// two users. Starting one finds the existing conversation of the pair or
// creates it; sending a message stores it and bumps the conversation's
// `updatedAt`, which orders the caller's conversation list. The clock is an
// input: `now` is the reading of Date.now() a handler would take.
module ConversationController {
  import opened Common
  import opened Tables
  import opened Models
  import opened Store

  /** getConversations: the conversations the caller takes part in, most
      recently updated first. */
  function GetConversations(conversations: seq<Conversation>, caller: Id): (r: seq<Row<Conversation>>)
    ensures SortedDesc(r, (x: Row<Conversation>) => x.doc.updatedAt)
    ensures forall x :: x in r <==> x.id < |conversations| && conversations[x.id] == x.doc
                                    && caller in x.doc.participants
    ensures forall i, j :: 0 <= i < j < |r| ==> r[i].id != r[j].id
  {
    SortRowsDesc(Where(conversations, (c: Conversation) => caller in c.participants),
                 (x: Row<Conversation>) => x.doc.updatedAt)
  }

  /** getMessagesForConversation: a missing conversation and a caller outside
      it are both 403; otherwise its messages, oldest first. */
  function GetMessagesForConversation(conversations: seq<Conversation>, messages: seq<DirectMessage>, caller: Id, cid: Id)
    : (r: Result<seq<Row<DirectMessage>>>)
    ensures r.Err? <==> cid >= |conversations| || caller !in conversations[cid].participants
    ensures r.Err? ==> r.status == Forbidden
    ensures r.Ok? ==> Ascending(r.value)
    ensures r.Ok? ==> forall x :: x in r.value <==> x.id < |messages| && messages[x.id] == x.doc
                                                    && x.doc.conversation == cid
  {
    if cid >= |conversations| || caller !in conversations[cid].participants then Err(Forbidden)
    else Ok(Where(messages, (m: DirectMessage) => m.conversation == cid))
  }

  /** findOne({ participants: { $all: [a, b] } }): the first conversation
      containing both users. */
  function FindPair(conversations: seq<Conversation>, a: Id, b: Id): (r: Option<Id>)
    ensures r.None? <==> forall i :: 0 <= i < |conversations| ==>
                           !(a in conversations[i].participants && b in conversations[i].participants)
    ensures r.Some? ==> r.value < |conversations|
                        && a in conversations[r.value].participants && b in conversations[r.value].participants
    ensures r.Some? ==> forall i :: 0 <= i < r.value ==>
                          !(a in conversations[i].participants && b in conversations[i].participants)
  {
    if |conversations| == 0 then None
    else if a in conversations[0].participants && b in conversations[0].participants then Some(0)
    else
      match FindPair(conversations[1..], a, b)
      case None => None
      case Some(i) => Some(i + 1)
  }

  /** `$all` ignores order: the pair (b, a) finds what (a, b) finds. */
  lemma {:induction false} FindPairSymmetric(conversations: seq<Conversation>, a: Id, b: Id)
    ensures FindPair(conversations, a, b) == FindPair(conversations, b, a)
  {
    if |conversations| > 0 {
      FindPairSymmetric(conversations[1..], a, b);
    }
  }

  /** findOne over one more document: the earlier match if any, else the new
      document when it matches. */
  lemma {:induction false} FindPairAppend(conversations: seq<Conversation>, c: Conversation, a: Id, b: Id)
    ensures FindPair(conversations + [c], a, b)
            == if FindPair(conversations, a, b).Some? then FindPair(conversations, a, b)
               else if a in c.participants && b in c.participants then Some(|conversations|)
               else None
  {
    if |conversations| > 0 {
      assert (conversations + [c])[1..] == conversations[1..] + [c];
      FindPairAppend(conversations[1..], c, a, b);
    }
  }

  /** Once the pair's conversation is created, the next start finds it, from
      either side: at most one conversation per pair is ever created. */
  lemma FindPairAfterCreate(conversations: seq<Conversation>, a: Id, b: Id, now: nat)
    requires FindPair(conversations, a, b).None?
    ensures FindPair(conversations + [Conversation([a, b], now)], a, b) == Some(|conversations|)
    ensures FindPair(conversations + [Conversation([a, b], now)], b, a) == Some(|conversations|)
  {
    FindPairSymmetric(conversations, a, b);
    FindPairAppend(conversations, Conversation([a, b], now), a, b);
    FindPairAppend(conversations, Conversation([a, b], now), b, a);
  }

  /** What startConversation answers: the conversation and whether it was
      created (201) or found (200). */
  datatype Started = Started(row: Row<Conversation>, created: bool)

  /** startConversation: no recipient 400, oneself 400; the pair's first
      conversation when there is one, otherwise a new `[caller, recipient]`
      conversation. */
  method StartConversation(db: Db, caller: Caller, recipient: Option<Id>, now: nat) returns (r: Result<Started>)
    modifies db`conversations
    ensures r.Err? <==> recipient.None? || recipient.value == caller.id
    ensures r.Err? ==> r.status == BadRequest && db.conversations == old(db.conversations)
    ensures (r.Ok? && FindPair(old(db.conversations), caller.id, recipient.value).Some?
             ==> && !r.value.created && db.conversations == old(db.conversations)
                 && r.value.row.id == FindPair(old(db.conversations), caller.id, recipient.value).value
                 && r.value.row.doc == db.conversations[r.value.row.id])
    ensures (r.Ok? && FindPair(old(db.conversations), caller.id, recipient.value).None?
             ==> && r.value.created
                 && r.value.row == Row(|old(db.conversations)|, Conversation([caller.id, recipient.value], now))
                 && db.conversations == old(db.conversations) + [r.value.row.doc])
    ensures r.Ok? ==> FindPair(db.conversations, caller.id, recipient.value) == Some(r.value.row.id)
  {
    if recipient.None? {
      return Err(BadRequest);
    }
    var other := recipient.value;
    if other == caller.id {
      return Err(BadRequest);
    }
    var i := 0;
    while i < |db.conversations|
      invariant i <= |db.conversations|
      invariant forall j :: 0 <= j < i ==>
                  !(caller.id in db.conversations[j].participants && other in db.conversations[j].participants)
    {
      var c := db.conversations[i];
      if caller.id in c.participants && other in c.participants {
        return Ok(Started(Row(i, c), false));
      }
      i := i + 1;
    }
    var c := Conversation([caller.id, other], now);
    FindPairAfterCreate(db.conversations, caller.id, other, now);
    db.conversations := db.conversations + [c];
    r := Ok(Started(Row(i, c), true));
  }

  /** `participants.find(p => !p.equals(sender))`: the first participant who
      is not `sender`. */
  function OtherParticipant(participants: seq<Id>, sender: Id): (r: Option<Id>)
    ensures r.None? <==> forall i :: 0 <= i < |participants| ==> participants[i] == sender
    ensures r.Some? ==> r.value in participants && r.value != sender
  {
    if |participants| == 0 then None
    else if participants[0] != sender then
      assert participants[0] in participants;
      Some(participants[0])
    else
      assert forall i :: 1 <= i < |participants| ==> participants[i] == participants[1..][i - 1];
      OtherParticipant(participants[1..], sender)
  }

  /** In a conversation of a pair, the other participant is the one the sender
      is not. */
  lemma OtherOfPair(a: Id, b: Id)
    requires a != b
    ensures OtherParticipant([a, b], a) == Some(b)
    ensures OtherParticipant([a, b], b) == Some(a)
  {
  }

  /** What sendMessage answers: the stored message, and the user told about
      it (the socket notification itself is not modelled). */
  datatype Sent = Sent(message: Row<DirectMessage>, notify: Option<Id>)

  /** sendMessage: a missing conversation or a caller outside it 403;
      otherwise the message is stored, the conversation's `updatedAt` becomes
      `now`, and the first other participant is the one notified. */
  method SendMessage(db: Db, caller: Caller, cid: Id, content: Option<string>, now: nat) returns (r: Result<Sent>)
    modifies db`directMessages, db`conversations
    ensures r.Err? <==> cid >= |old(db.conversations)| || caller.id !in old(db.conversations)[cid].participants
    ensures r.Err? ==> (r.status == Forbidden && db.directMessages == old(db.directMessages)
                        && db.conversations == old(db.conversations))
    ensures r.Ok? ==> r.value.message == Row(|old(db.directMessages)|, DirectMessage(cid, caller.id, content))
    ensures r.Ok? ==> db.directMessages == old(db.directMessages) + [r.value.message.doc]
    ensures r.Ok? ==> db.conversations == old(db.conversations)[cid := old(db.conversations)[cid].(updatedAt := now)]
    ensures r.Ok? ==> r.value.notify == OtherParticipant(old(db.conversations)[cid].participants, caller.id)
  {
    if cid >= |db.conversations| || caller.id !in db.conversations[cid].participants {
      return Err(Forbidden);
    }
    var message := DirectMessage(cid, caller.id, content);
    db.directMessages := db.directMessages + [message];
    var id := |db.directMessages| - 1;
    var conversation := db.conversations[cid].(updatedAt := now);
    db.conversations := db.conversations[cid := conversation];
    r := Ok(Sent(Row(id, message), OtherParticipant(conversation.participants, caller.id)));
  }
}
