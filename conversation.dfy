/** The chat conversation: message dicts held by reference in a shared list,
    the append-only conversation manager, the projection sent to the chat
    API, and the retry that folds the system prompt into the first user
    message for models that reject the `system` role. */
module Conversation {
  import opened Wrappers
  import opened Seqs

  /** What the chat API receives for one message: its role and content. */
  datatype Turn = Turn(role: string, content: string)

  /** A message dict. Dicts are shared by reference, so a message is an
      object. The messages built here hold only `role` and `content`, and
      only the content of a message is ever changed. */
  class Message {
    const role: string
    var content: string

    constructor (role: string, content: string)
      ensures this.role == role && this.content == content
    {
      this.role := role;
      this.content := content;
    }
  }

  /** A Python list of message dicts, itself shared by reference. */
  class MessageList {
    var items: seq<Message>

    constructor ()
      ensures items == []
    {
      items := [];
    }
  }

  /** No message object occurs twice in the list. */
  ghost predicate Distinct(msgs: seq<Message>) {
    forall i, j :: 0 <= i < j < |msgs| ==> msgs[i] != msgs[j]
  }

  // ---------------------------------------------------------------------------
  // _format_messages
  // ---------------------------------------------------------------------------

  /** Role and content of every message, in order; every other key is
      dropped. */
  function FormatMessages(conversation: seq<Message>): (r: seq<Turn>)
    reads conversation
    ensures |r| == |conversation|
    ensures forall k :: 0 <= k < |r| ==> r[k] == Turn(conversation[k].role, conversation[k].content)
  {
    if conversation == [] then []
    else [Turn(conversation[0].role, conversation[0].content)] + FormatMessages(conversation[1..])
  }

  /** The view of a list grown by one message. */
  lemma FormatMessagesSnoc(msgs: seq<Message>, m: Message)
    ensures FormatMessages(msgs + [m]) == FormatMessages(msgs) + [Turn(m.role, m.content)]
  {
    assert forall k :: 0 <= k < |msgs| ==> (msgs + [m])[k] == msgs[k];
  }

  // ---------------------------------------------------------------------------
  // The system-role rewrite, on values
  // ---------------------------------------------------------------------------

  predicate IsSystem(t: Turn) { t.role == "system" }
  predicate NotSystem(t: Turn) { t.role != "system" }

  /** The content of the first system message, or `""` when there is none. */
  function SystemPrompt(turns: seq<Turn>): string {
    if turns == [] then ""
    else if IsSystem(turns[0]) then turns[0].content
    else SystemPrompt(turns[1..])
  }

  /** The system prompt placed in front of a user message's content. */
  function Fold(prompt: string, content: string): string {
    prompt + "\n\n" + content
  }

  /** Whether the first non-system message is a user message, so that the
      prompt is folded into it rather than inserted as a message of its own. */
  predicate FoldsIntoUser(turns: seq<Turn>) {
    var rest := Filter(turns, NotSystem);
    rest != [] && rest[0].role == "user"
  }

  /** The messages sent on the retry: no system message; the prompt folded
      into the first user message, or inserted as a new user message at the
      front. */
  function WithoutSystemRole(turns: seq<Turn>): seq<Turn> {
    var rest := Filter(turns, NotSystem);
    var prompt := SystemPrompt(turns);
    if FoldsIntoUser(turns) then [Turn("user", Fold(prompt, rest[0].content))] + rest[1..]
    else [Turn("user", prompt)] + rest
  }

  /** The index of the first message that is not a system message. */
  function FirstNonSystem(turns: seq<Turn>): (r: Option<nat>)
    ensures r.Some? ==> r.value < |turns| && NotSystem(turns[r.value])
    ensures r.Some? ==> forall k :: 0 <= k < r.value ==> IsSystem(turns[k])
    ensures r.Some? ==> forall k :: 0 <= k < |turns| && NotSystem(turns[k]) ==> r.value <= k
    ensures r.None? ==> forall k :: 0 <= k < |turns| ==> IsSystem(turns[k])
  {
    if turns == [] then None
    else if NotSystem(turns[0]) then Some(0)
    else match FirstNonSystem(turns[1..])
      case None => None
      case Some(j) => Some(j + 1)
  }

  /** The original list after the retry changed its first user message in
      place: the system messages are still there, and that message's content
      now starts with the prompt. */
  function FoldedInPlace(turns: seq<Turn>): seq<Turn> {
    match FirstNonSystem(turns)
      case None => turns
      case Some(j) =>
        if turns[j].role == "user" then turns[j := Turn("user", Fold(SystemPrompt(turns), turns[j].content))]
        else turns
  }

  // ---------------------------------------------------------------------------
  // Properties of the rewrite
  // ---------------------------------------------------------------------------

  /** The first non-system message heads the filtered list. */
  lemma {:induction false} FilterHead(turns: seq<Turn>)
    ensures Filter(turns, NotSystem) != [] <==> FirstNonSystem(turns).Some?
    ensures FirstNonSystem(turns).Some? ==>
      Filter(turns, NotSystem)[0] == turns[FirstNonSystem(turns).value]
    decreases |turns|
  {
    if turns != [] && !NotSystem(turns[0]) {
      FilterHead(turns[1..]);
    }
  }

  /** The retry sends no system message. */
  lemma RewriteHasNoSystem(turns: seq<Turn>)
    ensures forall k :: 0 <= k < |WithoutSystemRole(turns)| ==> !IsSystem(WithoutSystemRole(turns)[k])
  {
    var rest := Filter(turns, NotSystem);
    FilterSound(turns, NotSystem);
    var r := WithoutSystemRole(turns);
    forall k | 0 <= k < |r| ensures !IsSystem(r[k]) {
      if k > 0 {
        if FoldsIntoUser(turns) {
          assert r[k] == rest[k];
        } else {
          assert r[k] == rest[k - 1];
        }
      }
    }
  }

  /** Every message that is not a system message is sent after the head of
      the request; only the first non-system message can be folded into the
      head when it is a user message. */
  lemma RewriteKeepsOthers(turns: seq<Turn>, i: nat)
    requires i < |turns| && NotSystem(turns[i])
    requires FoldsIntoUser(turns) ==> FirstNonSystem(turns) != Some(i)
    ensures turns[i] in WithoutSystemRole(turns)[1..]
  {
    var rest := Filter(turns, NotSystem);
    var before := Filter(turns[..i], NotSystem);
    FilterSplit(turns, i, NotSystem);
    assert rest[|before|] == turns[i];
    var r := WithoutSystemRole(turns);
    if FoldsIntoUser(turns) {
      EarlierNonSystem(turns, i);
      assert r[1..] == rest[1..];
      assert r[1..][|before| - 1] == turns[i];
    } else {
      assert r[1..] == rest;
    }
  }

  /** A non-system message that is not the first one has a non-system
      message before it. */
  lemma EarlierNonSystem(turns: seq<Turn>, i: nat)
    requires i < |turns| && NotSystem(turns[i]) && FirstNonSystem(turns) != Some(i)
    ensures Filter(turns[..i], NotSystem) != []
  {
    var j := FirstNonSystem(turns).value;
    assert turns[..i][j] == turns[j];
    FilterComplete(turns[..i], NotSystem, turns[j]);
  }

  /** The system prompt is the content of the first system message, or empty
      when there is no system message. */
  lemma {:induction false} SystemPromptIsFirst(turns: seq<Turn>)
    ensures (forall k :: 0 <= k < |turns| ==> !IsSystem(turns[k])) ==> SystemPrompt(turns) == ""
    ensures forall j :: FirstSystemAt(turns, j) ==> SystemPrompt(turns) == turns[j].content
    decreases |turns|
  {
    if turns != [] && !IsSystem(turns[0]) {
      SystemPromptIsFirst(turns[1..]);
      forall j | FirstSystemAt(turns, j)
        ensures SystemPrompt(turns) == turns[j].content
      {
        assert turns[1..][j - 1] == turns[j];
        forall k | 0 <= k < j - 1 ensures !IsSystem(turns[1..][k]) {
          assert turns[1..][k] == turns[k + 1];
        }
        assert FirstSystemAt(turns[1..], j - 1);
      }
    }
  }

  /** Message `j` is the first system message. */
  predicate FirstSystemAt(turns: seq<Turn>, j: int) {
    0 <= j < |turns| && IsSystem(turns[j]) && forall k :: 0 <= k < j ==> !IsSystem(turns[k])
  }

  /** Folding in place and then dropping the system messages gives exactly
      what the retry sends, whenever the prompt is folded into a user
      message. */
  lemma {:induction false} FoldedInPlaceThenFiltered(turns: seq<Turn>)
    requires FoldsIntoUser(turns)
    ensures Filter(FoldedInPlace(turns), NotSystem) == WithoutSystemRole(turns)
  {
    FilterHead(turns);
    var j := FirstNonSystem(turns).value;
    var folded := Turn("user", Fold(SystemPrompt(turns), turns[j].content));
    assert turns == turns[..j] + [turns[j]] + turns[j + 1..];
    assert turns[j := folded] == turns[..j] + [folded] + turns[j + 1..];
    FilterPastSystemRun(turns[..j], turns[j], turns[j + 1..]);
    FilterPastSystemRun(turns[..j], folded, turns[j + 1..]);
  }

  /** Past a run of system messages the filter starts with the first
      non-system message. */
  lemma FilterPastSystemRun(run: seq<Turn>, t: Turn, tail: seq<Turn>)
    requires forall k :: 0 <= k < |run| ==> IsSystem(run[k])
    requires NotSystem(t)
    ensures Filter(run + [t] + tail, NotSystem) == [t] + Filter(tail, NotSystem)
  {
    FilterConcat(run + [t], tail, NotSystem);
    FilterConcat(run, [t], NotSystem);
    AllSystemFiltered(run);
    assert [t][1..] == [];
  }

  /** A run of system messages filters to nothing. */
  lemma {:induction false} AllSystemFiltered(turns: seq<Turn>)
    requires forall k :: 0 <= k < |turns| ==> IsSystem(turns[k])
    ensures Filter(turns, NotSystem) == []
    decreases |turns|
  {
    if turns != [] {
      AllSystemFiltered(turns[1..]);
    }
  }

  /** On a failed retry the original conversation keeps its system message
      but its user message already carries the prompt, so a second retry
      sends the prompt twice. */
  lemma FailedRetryFoldsTwice()
    ensures FoldedInPlace([Turn("system", "S"), Turn("user", "U")])
         == [Turn("system", "S"), Turn("user", "S\n\nU")]
    ensures WithoutSystemRole(FoldedInPlace([Turn("system", "S"), Turn("user", "U")]))
         == [Turn("user", "S\n\nS\n\nU")]
  {
    var turns := [Turn("system", "S"), Turn("user", "U")];
    assert FirstNonSystem(turns[1..]) == Some(0);
    assert FirstNonSystem(turns) == Some(1);
    assert SystemPrompt(turns) == "S";
    var once := [Turn("system", "S"), Turn("user", "S\n\nU")];
    assert Fold("S", "U") == "S\n\nU";
    assert FoldedInPlace(turns) == once;
    assert once[1..][1..] == [];
    assert Fold("S", "S\n\nU") == "S\n\nS\n\nU";
    assert Filter(once, NotSystem) == [Turn("user", "S\n\nU")];
    assert SystemPrompt(once) == "S";
  }

  // ---------------------------------------------------------------------------
  // The system-role rewrite, on the shared message objects
  // ---------------------------------------------------------------------------

  /** `[msg for msg in conversation if msg["role"] != "system"]`: the same
      objects, not copies. */
  function NonSystemMessages(msgs: seq<Message>): (r: seq<Message>)
    reads msgs
    ensures forall m :: m in r ==> m in msgs
  {
    if msgs == [] then []
    else
      var rest := NonSystemMessages(msgs[1..]);
      if msgs[0].role != "system" then [msgs[0]] + rest else rest
  }

  /** The filtered objects show exactly the filtered view. */
  lemma {:induction false} NonSystemView(msgs: seq<Message>)
    ensures FormatMessages(NonSystemMessages(msgs)) == Filter(FormatMessages(msgs), NotSystem)
    decreases |msgs|
  {
    if msgs != [] {
      assert FormatMessages(msgs)[1..] == FormatMessages(msgs[1..]);
      NonSystemView(msgs[1..]);
      var rest := NonSystemMessages(msgs[1..]);
      if msgs[0].role != "system" {
        assert FormatMessages([msgs[0]] + rest)[1..] == FormatMessages(rest);
      }
    }
  }

  /** Filtering a list without duplicates gives a list without duplicates. */
  lemma {:induction false} NonSystemDistinct(msgs: seq<Message>)
    requires Distinct(msgs)
    ensures Distinct(NonSystemMessages(msgs))
    decreases |msgs|
  {
    if msgs != [] {
      NonSystemDistinct(msgs[1..]);
      var rest := NonSystemMessages(msgs[1..]);
      if msgs[0].role != "system" {
        assert msgs[0] !in msgs[1..];
        var r := [msgs[0]] + rest;
        forall i, j | 0 <= i < j < |r| ensures r[i] != r[j] {
          assert r[j] == rest[j - 1];
          if i > 0 { assert r[i] == rest[i - 1]; }
        }
      }
    }
  }

  /** `next((m["content"] for m in conversation if m["role"] == "system"), "")`. */
  function SystemPromptOf(msgs: seq<Message>): (prompt: string)
    reads msgs
    ensures prompt == SystemPrompt(FormatMessages(msgs))
  {
    if msgs == [] then ""
    else
      assert FormatMessages(msgs)[1..] == FormatMessages(msgs[1..]);
      if msgs[0].role == "system" then msgs[0].content else SystemPromptOf(msgs[1..])
  }

  /** The first non-system message object is the head of the filtered list. */
  lemma {:induction false} NonSystemHead(msgs: seq<Message>)
    requires NonSystemMessages(msgs) != []
    ensures FirstNonSystem(FormatMessages(msgs)).Some?
    ensures NonSystemMessages(msgs)[0] == msgs[FirstNonSystem(FormatMessages(msgs)).value]
    decreases |msgs|
  {
    assert FormatMessages(msgs)[1..] == FormatMessages(msgs[1..]);
    if msgs[0].role == "system" {
      NonSystemHead(msgs[1..]);
    }
  }

  /** The chat API client. */
  class OpenAIInteraction {
    /** Details of the most recent failed request. */
    var lastError: string

    constructor ()
      ensures lastError == ""
    {
      lastError := "";
    }

    /** Resends the conversation without system messages, the system prompt
        folded into the first user message (or inserted as a user message of
        its own). The first user message is changed in place, so the
        original conversation sees the change whether or not the request
        succeeds; only on success is the list itself replaced. `api` is the
        chat completion call: the reply text or the error message. */
    method RetryWithoutSystemRole(conversation: MessageList, api: seq<Turn> -> Result<string, string>)
      returns (reply: Option<string>, ghost sent: seq<Turn>)
      modifies this, conversation, conversation.items
      ensures Distinct(old(conversation.items)) ==>
        sent == WithoutSystemRole(old(FormatMessages(conversation.items)))
      ensures Distinct(old(conversation.items)) ==>
        FormatMessages(old(conversation.items)) == FoldedInPlace(old(FormatMessages(conversation.items)))
      ensures api(sent).Success? ==>
        reply == Some(api(sent).value) && FormatMessages(conversation.items) == sent && lastError == old(lastError)
      ensures api(sent).Failure? ==>
        reply == None && conversation.items == old(conversation.items) && lastError == api(sent).error
    {
      var messagesWithoutSystem := FoldSystemPrompt(conversation.items);
      var request := FormatMessages(messagesWithoutSystem);
      sent := request;
      var response := api(request);
      if response.Success? {
        conversation.items := messagesWithoutSystem;
        reply := Some(response.value);
      } else {
        lastError := response.error;
        reply := None;
      }
    }
  }

  /** A list whose messages show `before`, except message `j`, has the view
      `before` with message `j` replaced. */
  lemma ViewWithOneChanged(msgs: seq<Message>, before: seq<Turn>, j: nat)
    requires |before| == |msgs| && j < |msgs|
    requires forall k :: 0 <= k < |msgs| && k != j ==> Turn(msgs[k].role, msgs[k].content) == before[k]
    ensures FormatMessages(msgs) == before[j := Turn(msgs[j].role, msgs[j].content)]
  {
  }

  /** The rewrite of the retry, on the message objects of `conversation`:
      the non-system messages, the same objects, with the system prompt
      written into the first one when it is a user message and a new user
      message in front otherwise. */
  method FoldSystemPrompt(conversation: seq<Message>) returns (messagesWithoutSystem: seq<Message>)
    modifies conversation
    ensures Distinct(conversation) ==>
      FormatMessages(messagesWithoutSystem) == WithoutSystemRole(old(FormatMessages(conversation)))
    ensures Distinct(conversation) ==>
      FormatMessages(conversation) == FoldedInPlace(old(FormatMessages(conversation)))
  {
    messagesWithoutSystem := NonSystemMessages(conversation);
    var systemPrompt := SystemPromptOf(conversation);
    if |messagesWithoutSystem| > 0 && messagesWithoutSystem[0].role == "user" {
      assert messagesWithoutSystem[0] in conversation;
      FoldIntoFirstUser(conversation, messagesWithoutSystem, systemPrompt);
    } else {
      ghost var view := FormatMessages(conversation);
      ghost var restView := FormatMessages(messagesWithoutSystem);
      NonSystemView(conversation);
      FilterHead(view);
      assert !FoldsIntoUser(view);
      assert WithoutSystemRole(view) == [Turn("user", systemPrompt)] + restView;
      assert FoldedInPlace(view) == view;
      var m := new Message("user", systemPrompt);
      messagesWithoutSystem := [m] + messagesWithoutSystem;
      assert FormatMessages(messagesWithoutSystem)[1..] == FormatMessages(messagesWithoutSystem[1..]);
    }
  }

  /** The branch of the rewrite that writes the prompt into the first
      non-system message, a user message, shared by both lists. */
  method FoldIntoFirstUser(conversation: seq<Message>, rest: seq<Message>, systemPrompt: string)
    requires rest == NonSystemMessages(conversation) && systemPrompt == SystemPrompt(FormatMessages(conversation))
    requires |rest| > 0 && rest[0].role == "user"
    modifies rest[0]
    ensures Distinct(conversation) ==>
      FormatMessages(rest) == WithoutSystemRole(old(FormatMessages(conversation)))
    ensures Distinct(conversation) ==>
      FormatMessages(conversation) == FoldedInPlace(old(FormatMessages(conversation)))
  {
    ghost var view := FormatMessages(conversation);
    ghost var restView := FormatMessages(rest);
    NonSystemView(conversation);
    FilterHead(view);
    NonSystemHead(conversation);
    ghost var j := FirstNonSystem(view).value;
    var first := rest[0];
    ghost var folded := Turn("user", Fold(systemPrompt, first.content));
    assert view[j] == restView[0];
    assert FoldedInPlace(view) == view[j := folded];
    assert WithoutSystemRole(view) == restView[0 := folded];
    if Distinct(conversation) {
      NonSystemDistinct(conversation);
    }
    first.content := Fold(systemPrompt, first.content);
    if Distinct(conversation) {
      assert forall k :: 0 <= k < |conversation| && k != j ==> conversation[k] != first;
      ViewWithOneChanged(conversation, view, j);
      assert forall k :: 0 < k < |rest| ==> rest[k] != first;
      ViewWithOneChanged(rest, restView, 0);
    }
  }

  // ---------------------------------------------------------------------------
  // ConversationManager
  // ---------------------------------------------------------------------------

  /** Holds the conversation as a shared list of message dicts. Loading it
      from and saving it to a file is not part of this model. */
  class ConversationManager {
    var conversation: MessageList

    constructor ()
      ensures fresh(conversation) && conversation.items == []
    {
      conversation := new MessageList();
    }

    /** Appends one `{role, content}` message at the end; every earlier
        message, and what it holds, is left as it was. */
    method AppendMessage(role: string, content: string)
      modifies conversation
      ensures |conversation.items| == |old(conversation.items)| + 1
      ensures conversation.items[..|old(conversation.items)|] == old(conversation.items)
      ensures fresh(conversation.items[|old(conversation.items)|])
      ensures FormatMessages(conversation.items) == old(FormatMessages(conversation.items)) + [Turn(role, content)]
      ensures Distinct(old(conversation.items)) ==> Distinct(conversation.items)
    {
      ghost var before := conversation.items;
      ghost var view := FormatMessages(before);
      var m := new Message(role, content);
      assert FormatMessages(before) == view;
      conversation.items := conversation.items + [m];
      assert FormatMessages(before) == view;
      FormatMessagesSnoc(before, m);
      assert conversation.items[..|before|] == before;
    }
  }
}
