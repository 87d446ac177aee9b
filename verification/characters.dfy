/**
 * The character manager: entering character selection (a guarded state
 * transition that shows the selection pods), name suggestions with fixed
 * fallbacks, and the result of a character-creation request. Every call goes
 * to the client-method entity.
 *
 * The random-name table and the name check of the creation request are
 * inputs: the table is a function from (category, slot) to a name or nothing.
 */
module Characters {

  import opened Wrappers
  import opened Messages

  /** The connection states the character manager reads or writes; the rest are `OtherState`. */
  datatype ClientState = LoggedIn | CharacterSelection | OtherState

  datatype Client = Client(connection: ClientId, accountId: int, state: ClientState)

  /** Pod entity ids are this base plus the pod number 1..MaxSelectionPods. */
  const SelectionPodStartEntityId: int := 100
  const MaxSelectionPods: int := 16

  /** The create call of pod number i (1-based) on a connection. */
  function PodCreate(to: ClientId, i: int): Message {
    Message(to, ClientMethod, CreatePhysicalEntity(SelectionPodStartEntityId + i, CharacterSelectionPod, [CharacterInfo(i, true)]))
  }

  /** The client after the call, and the calls sent to it. */
  datatype SelectionStart = SelectionStart(client: Client, sent: seq<Message>)

  /**
   * StartCharacterSelection: only a logged-in client moves on; it is sent the
   * begin call with its account id, then one pod create per slot with entity
   * ids 101..116 and pod numbers 1..16, and its state becomes
   * CharacterSelection. Any other client is left as it is and sent nothing.
   */
  function StartCharacterSelection(client: Client): (r: SelectionStart)
    ensures client.state != LoggedIn ==> r.client == client && r.sent == []
    ensures client.state == LoggedIn ==>
      && r.client == client.(state := CharacterSelection)
      && |r.sent| == 1 + MaxSelectionPods
      && r.sent[0] == Message(client.connection, ClientMethod, BeginCharacterSelection(client.accountId))
      && forall i :: 1 <= i <= MaxSelectionPods ==>
           r.sent[i].to == client.connection && r.sent[i].addr == ClientMethod
           && r.sent[i].kind.CreatePhysicalEntity? && r.sent[i].kind.cls == CharacterSelectionPod
           && r.sent[i].kind.created == 100 + i && r.sent[i].kind.data == [CharacterInfo(i, true)]
  {
    if client.state != LoggedIn then SelectionStart(client, [])
    else
      var pods := seq(MaxSelectionPods, k requires 0 <= k < MaxSelectionPods => PodCreate(client.connection, k + 1));
      SelectionStart(client.(state := CharacterSelection),
                     [Message(client.connection, ClientMethod, BeginCharacterSelection(client.accountId))] + pods)
  }

  /** A second call after the transition is a no-op: the client is no longer logged in. */
  lemma StartCharacterSelectionTwice(client: Client)
    ensures var once := StartCharacterSelection(client);
            StartCharacterSelection(once.client) == SelectionStart(once.client, [])
  {
  }

  /** The pod entity ids are distinct and all above the start id. */
  lemma PodIdsDistinct(client: Client, i: int, j: int)
    requires client.state == LoggedIn
    requires 1 <= i <= MaxSelectionPods && 1 <= j <= MaxSelectionPods && i != j
    ensures var s := StartCharacterSelection(client).sent;
            s[i].kind.created != s[j].kind.created && s[i].kind.created > SelectionPodStartEntityId
  {
  }

  /** The random-name table: a name for (category, slot), or nothing. */
  type NameTable = (string, string) -> Option<string>

  /**
   * RequestCharacterName: gender 0 asks the male first-name table and falls
   * back to "Richard"; any other gender asks the female one and falls back to
   * "Rachel". One call is sent.
   */
  function RequestCharacterName(to: ClientId, gender: int, names: NameTable): (m: Message)
    ensures m.to == to && m.addr == ClientMethod && m.kind.GeneratedCharacterName?
    ensures gender == 0 ==>
      m.kind.name == (if names("male", "first").Some? then names("male", "first").value else "Richard")
    ensures gender != 0 ==>
      m.kind.name == (if names("female", "first").Some? then names("female", "first").value else "Rachel")
  {
    var fallback := if gender == 0 then "Richard" else "Rachel";
    var name := names(if gender == 0 then "male" else "female", "first").GetOr(fallback);
    Message(to, ClientMethod, GeneratedCharacterName(name))
  }

  /**
   * The first-name reply depends only on the one table entry the gender
   * selects: two tables that agree there give the same call.
   */
  lemma CharacterNameReadsOneEntry(to: ClientId, gender: int, names: NameTable, names': NameTable)
    requires gender == 0 ==> names("male", "first") == names'("male", "first")
    requires gender != 0 ==> names("female", "first") == names'("female", "first")
    ensures RequestCharacterName(to, gender, names) == RequestCharacterName(to, gender, names')
  {
  }

  /** RequestFamilyName: the neutral last-name table, falling back to "Garriott". One call is sent. */
  function RequestFamilyName(to: ClientId, names: NameTable): (m: Message)
    ensures m.to == to && m.addr == ClientMethod && m.kind.GeneratedFamilyName?
    ensures names("neutral", "last").None? ==> m.kind.name == "Garriott"
    ensures names("neutral", "last").Some? ==> m.kind.name == names("neutral", "last").value
  {
    Message(to, ClientMethod, GeneratedFamilyName(names("neutral", "last").GetOr("Garriott")))
  }

  /** The family-name reply depends only on the neutral last-name entry. */
  lemma FamilyNameReadsOneEntry(to: ClientId, names: NameTable, names': NameTable)
    requires names("neutral", "last") == names'("neutral", "last")
    ensures RequestFamilyName(to, names) == RequestFamilyName(to, names')
  {
  }

  /** The fields of a creation request the manager reads. */
  datatype CreateRequest = CreateRequest(slotNum: int, familyName: string)

  /**
   * RequestCreateCharacterInSlot: exactly one call. A failed name check is
   * reported with its result code and nothing else; a passed one reports
   * success with the request's slot and family name.
   */
  function RequestCreateCharacterInSlot(to: ClientId, request: CreateRequest, checkResult: CreateCharacterResult)
    : (sent: seq<Message>)
    ensures |sent| == 1 && sent[0].to == to && sent[0].addr == ClientMethod
    ensures sent[0].kind.UserCreationFailed? <==> checkResult != Success
    ensures sent[0].kind.UserCreationFailed? ==> sent[0].kind.result == checkResult
    ensures sent[0].kind.CharacterCreateSuccess? <==> checkResult == Success
    ensures sent[0].kind.CharacterCreateSuccess? ==>
      sent[0].kind.slotNum == request.slotNum && sent[0].kind.familyName == request.familyName
  {
    if checkResult != Success then [Message(to, ClientMethod, UserCreationFailed(checkResult))]
    else [Message(to, ClientMethod, CharacterCreateSuccess(request.slotNum, request.familyName))]
  }

  /**
   * A failed name check is reported the same way whatever the request, while
   * two passed requests are answered alike exactly when they are the same
   * request: the success call carries everything the manager reads from it.
   */
  lemma CreateReplyDependsOnRequestOnlyOnSuccess(to: ClientId, a: CreateRequest, b: CreateRequest, checkResult: CreateCharacterResult)
    ensures checkResult != Success ==>
      RequestCreateCharacterInSlot(to, a, checkResult) == RequestCreateCharacterInSlot(to, b, checkResult)
    ensures checkResult == Success ==>
      (RequestCreateCharacterInSlot(to, a, checkResult) == RequestCreateCharacterInSlot(to, b, checkResult) <==> a == b)
  {
  }
}
