/** The sidebar list of past conversations: loading it from the store and
    deleting one entry. */
module History {
  import opened Store

  datatype Conversation = Conversation(id: string, title: string, updatedAt: string)

  /** `conversations.filter((c) => c.id !== id)` */
  function RemoveId(cs: seq<Conversation>, id: string): (r: seq<Conversation>)
    ensures |r| <= |cs|
    ensures forall k :: 0 <= k < |r| ==> r[k].id != id
  {
    if cs == [] then []
    else (if cs[0].id != id then [cs[0]] else []) + RemoveId(cs[1..], id)
  }

  class ConversationList {
    var conversations: seq<Conversation>
    /** How many "Failed to delete conversation" toasts were shown. */
    var failedDeletes: nat

    constructor()
      ensures conversations == [] && failedDeletes == 0
    {
      conversations := [];
      failedDeletes := 0;
    }

    /** `loadConversations`: a store error leaves the list as it is;
        otherwise the returned rows replace it, and no rows is an empty
        list. */
    method LoadConversations(result: Query<seq<Conversation>>)
      modifies this`conversations
      ensures result.QueryError? ==> conversations == old(conversations)
      ensures result.Data? ==> conversations == RowsOr(result.rows)
    {
      match result
      case QueryError =>
        return;
      case Data(rows) =>
        conversations := RowsOr(rows);
    }

    /** `deleteConversation`, with the store's answer as `failed`: a failure
        shows a toast and changes nothing; otherwise the entry is removed,
        and `resetActive` says whether `onNewConversation` was called, which
        is when the deleted conversation is the active one. */
    method DeleteConversation(id: string, current: Option<string>, failed: bool) returns (resetActive: bool)
      modifies this`conversations, this`failedDeletes
      ensures failed ==> conversations == old(conversations) && failedDeletes == old(failedDeletes) + 1 && !resetActive
      ensures !failed ==>
        && conversations == RemoveId(old(conversations), id)
        && failedDeletes == old(failedDeletes)
        && resetActive == (current == Some(id))
    {
      resetActive := false;
      if failed {
        failedDeletes := failedDeletes + 1;
        return;
      }
      conversations := RemoveId(conversations, id);
      if current == Some(id) {
        resetActive := true;
      }
    }
  }

  // ---------------------------------------------------------------------
  // Lemmas

  /** The filter works entry by entry, so the entries it keeps stay in
      their relative order. */
  lemma {:induction false} RemoveIdAppend(a: seq<Conversation>, b: seq<Conversation>, id: string)
    ensures RemoveId(a + b, id) == RemoveId(a, id) + RemoveId(b, id)
  {
    if a != [] {
      assert (a + b)[1..] == a[1..] + b;
      RemoveIdAppend(a[1..], b, id);
      assert [a[0]] + (a[1..] + b) == a + b;
    } else {
      assert a + b == b;
    }
  }

  /** An entry survives the deletion exactly when it was listed and has
      another id. */
  lemma {:induction false} RemoveIdKeeps(cs: seq<Conversation>, id: string, c: Conversation)
    ensures c in RemoveId(cs, id) <==> c in cs && c.id != id
  {
    if cs != [] {
      RemoveIdKeeps(cs[1..], id, c);
      assert cs == [cs[0]] + cs[1..];
    }
  }

  /** A list without the id is left as it is. */
  lemma {:induction false} RemoveIdAbsent(cs: seq<Conversation>, id: string)
    requires forall k :: 0 <= k < |cs| ==> cs[k].id != id
    ensures RemoveId(cs, id) == cs
  {
    if cs != [] {
      RemoveIdAbsent(cs[1..], id);
      assert cs == [cs[0]] + cs[1..];
    }
  }

  /** Deleting the same id twice is deleting it once. */
  lemma RemoveIdTwice(cs: seq<Conversation>, id: string)
    ensures RemoveId(RemoveId(cs, id), id) == RemoveId(cs, id)
  {
    RemoveIdAbsent(RemoveId(cs, id), id);
  }
}
