// The session's chat table: the chats a connection knows, their participants,
// and the two first-match scans the command handler performs over them
// (chat by IRC identifier, participant by case-insensitive safe name).
module Chats {
  import opened Strings

  datatype Option<T> = None | Some(value: T)

  /** Opaque backend identifiers. */
  type ChatId = string
  type UserId = string

  /** One member of a chat: backend user id, IRC-safe nick, display name, and
      whether it is the session's own account. */
  datatype Participant = Participant(id: UserId, safeName: string, fullName: string, isMe: bool)

  /** One backend conversation as the session sees it. `identifier` is the
      IRC channel or nick the chat is addressed by; `joined` is whether the
      client currently has it open. */
  datatype Chat = Chat(
    id: ChatId,
    identifier: string,
    name: string,
    isGroup: bool,
    joined: bool,
    participants: seq<Participant>)

  /** No two chats of a session share an IRC identifier. */
  predicate UniqueIdentifiers(chats: seq<Chat>)
  {
    forall i, j :: 0 <= i < j < |chats| ==> chats[i].identifier != chats[j].identifier
  }

  /** Two chats that agree on everything except the `joined` flag. */
  predicate SameChat(c: Chat, d: Chat)
  {
    c.id == d.id && c.identifier == d.identifier && c.name == d.name &&
    c.isGroup == d.isGroup && c.participants == d.participants
  }

  /** Two chat tables that list the same chats in the same order, differing at
      most in their `joined` flags. */
  predicate SameExceptJoined(a: seq<Chat>, b: seq<Chat>)
  {
    |a| == |b| && forall i :: 0 <= i < |a| ==> SameChat(a[i], b[i])
  }

  /** The table with the `joined` flag of chat `i` set to `b`. */
  function SetJoined(chats: seq<Chat>, i: nat, b: bool): (r: seq<Chat>)
    requires i < |chats|
    ensures SameExceptJoined(chats, r)
    ensures r[i].joined == b
    ensures forall k :: 0 <= k < |chats| && k != i ==> r[k] == chats[k]
  {
    chats[i := chats[i].(joined := b)]
  }

  /** `GetChatByIdentifier` over the known chats: the index of the first chat
      addressed by `ident`, or None when no chat is. */
  function Lookup(chats: seq<Chat>, ident: string): (r: Option<nat>)
    ensures r.Some? ==> r.value < |chats| && chats[r.value].identifier == ident
  {
    if |chats| == 0 then None
    else if chats[0].identifier == ident then Some(0)
    else match Lookup(chats[1..], ident)
      case None => None
      case Some(i) => Some(i + 1)
  }

  /** Lookup finds the first chat addressed by `ident`, and finds none
      exactly when no chat is. */
  lemma {:induction false} LookupFirst(chats: seq<Chat>, ident: string)
    ensures var r := Lookup(chats, ident);
      (r.Some? ==> forall j :: 0 <= j < r.value ==> chats[j].identifier != ident) &&
      (r.None? <==> forall j :: 0 <= j < |chats| ==> chats[j].identifier != ident)
    decreases |chats|
  {
    if |chats| > 0 && chats[0].identifier != ident {
      LookupFirst(chats[1..], ident);
      var r := Lookup(chats, ident);
      if r.Some? {
        forall j | 0 <= j < r.value
          ensures chats[j].identifier != ident
        {
          if j > 0 {
            assert chats[j] == chats[1..][j - 1];
          }
        }
      } else {
        forall j | 0 <= j < |chats|
          ensures chats[j].identifier != ident
        {
          if j > 0 {
            assert chats[j] == chats[1..][j - 1];
          }
        }
      }
    }
  }

  /** Resolving a chat's own identifier gives back that chat. */
  lemma LookupIdentifier(chats: seq<Chat>, k: nat)
    requires UniqueIdentifiers(chats)
    requires k < |chats|
    ensures Lookup(chats, chats[k].identifier) == Some(k)
  {
    LookupFirst(chats, chats[k].identifier);
    var r := Lookup(chats, chats[k].identifier);
    assert r.Some?;
    assert chats[r.value].identifier == chats[k].identifier;
  }

  /** Resolution depends only on identifiers, so flipping `joined` flags never
      changes which chat an identifier resolves to. */
  lemma {:induction false} LookupSameExceptJoined(a: seq<Chat>, b: seq<Chat>, ident: string)
    requires SameExceptJoined(a, b)
    ensures Lookup(a, ident) == Lookup(b, ident)
    decreases |a|
  {
    if |a| > 0 {
      assert SameChat(a[0], b[0]);
      assert SameExceptJoined(a[1..], b[1..]) by {
        forall i | 0 <= i < |a| - 1
          ensures SameChat(a[1..][i], b[1..][i])
        {
          assert SameChat(a[i + 1], b[i + 1]);
        }
      }
      LookupSameExceptJoined(a[1..], b[1..], ident);
    }
  }

  /** SameExceptJoined keeps identifiers unique. */
  lemma UniqueSameExceptJoined(a: seq<Chat>, b: seq<Chat>)
    requires SameExceptJoined(a, b) && UniqueIdentifiers(a)
    ensures UniqueIdentifiers(b)
  {
  }

  /** The chats that the comma-separated list `idents` resolves to, left to
      right, up to (not including) the first identifier that does not resolve. */
  function Resolved(chats: seq<Chat>, idents: seq<string>): (r: seq<nat>)
    ensures |r| <= |idents|
    ensures forall j :: 0 <= j < |r| ==> r[j] < |chats| && Lookup(chats, idents[j]) == Some(r[j])
    ensures |r| < |idents| ==> Lookup(chats, idents[|r|]).None?
    decreases |idents|
  {
    if |idents| == 0 then []
    else match Lookup(chats, idents[0])
      case None => []
      case Some(i) => [i] + Resolved(chats, idents[1..])
  }

  /** Resolution lists agree on tables that differ only in `joined` flags. */
  lemma {:induction false} ResolvedSameExceptJoined(a: seq<Chat>, b: seq<Chat>, idents: seq<string>)
    requires SameExceptJoined(a, b)
    ensures Resolved(a, idents) == Resolved(b, idents)
    decreases |idents|
  {
    if |idents| > 0 {
      LookupSameExceptJoined(a, b, idents[0]);
      ResolvedSameExceptJoined(a, b, idents[1..]);
    }
  }

  /** A participant's nick matches `nick` (already lower-cased) ignoring case. */
  predicate Matches(p: Participant, nick: string)
  {
    Lower(p.safeName) == nick
  }

  /** The index of the first participant whose lower-cased safe name is
      `nick`, or None: first match wins and no match is silent. */
  function FirstMatch(ps: seq<Participant>, nick: string): (r: Option<nat>)
    ensures r.Some? ==> r.value < |ps| && Matches(ps[r.value], nick)
    ensures r.Some? ==> forall j :: 0 <= j < r.value ==> !Matches(ps[j], nick)
    ensures r.None? <==> forall j :: 0 <= j < |ps| ==> !Matches(ps[j], nick)
  {
    if |ps| == 0 then None
    else if Matches(ps[0], nick) then Some(0)
    else match FirstMatch(ps[1..], nick)
      case None => None
      case Some(i) => Some(i + 1)
  }

  /** The scan the handler runs over `chat.Participants` for MODE and KICK. */
  method FindParticipant(ps: seq<Participant>, nick: string) returns (r: Option<nat>)
    ensures r == FirstMatch(ps, nick)
  {
    var i := 0;
    while i < |ps|
      invariant 0 <= i <= |ps|
      invariant forall j :: 0 <= j < i ==> !Matches(ps[j], nick)
    {
      if Lower(ps[i].safeName) == nick {
        r := Some(i);
        ghost var f := FirstMatch(ps, nick);
        assert f.Some? && !(f.value < i) && !(i < f.value);
        return;
      }
      i := i + 1;
    }
    r := None;
  }
}
