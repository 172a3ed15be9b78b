/**
 * The in-memory conversation store: a dictionary from `str(conversation.id)`
 * to the conversation object itself. Keys keep the order in which they were
 * first inserted, as a Python dictionary does. Every operation runs as one
 * atomic step; `fault` stands for an exception raised inside the operation's
 * `try` block, which the store reports as a memory-repository error.
 */
module MemoryStore {
  import opened Wrappers
  import opened InfrastructureExceptions
  import opened ConversationIds
  import opened Conversations

  /** No key occurs twice. */
  predicate Distinct(s: seq<string>) {
    forall i, j :: 0 <= i < j < |s| ==> s[i] != s[j]
  }

  /** `s` without `k`, the other keys in their order. */
  function Without(s: seq<string>, k: string): (r: seq<string>)
    ensures forall x :: x in r <==> x in s && x != k
    ensures Distinct(s) ==> Distinct(r)
    ensures k !in s ==> r == s
  {
    if |s| == 0 then []
    else if s[0] == k then Without(s[1..], k)
    else
      var rest := Without(s[1..], k);
      assert Distinct(s) ==> s[0] !in s[1..];
      [s[0]] + rest
  }

  /** A sequence without repetitions has as many elements as its set. */
  lemma {:induction false} DistinctCardinality(s: seq<string>)
    requires Distinct(s)
    ensures |set x | x in s| == |s|
  {
    if |s| > 0 {
      var t := s[1..];
      assert forall i, j :: 0 <= i < j < |t| ==> t[i] == s[i + 1] && t[j] == s[j + 1];
      DistinctCardinality(t);
      assert (set x | x in s) == (set x | x in t) + {s[0]};
      assert s[0] !in t;
    }
  }

  /** The message detail of each failing operation. */
  const StoreFailed := "Failed to store conversation: "
  const RetrieveFailed := "Failed to retrieve conversation: "
  const NotFoundForUpdate := "Conversation not found for update: "
  const UpdateFailed := "Failed to update conversation: "
  const DeleteFailed := "Failed to delete conversation: "
  const CountFailed := "Failed to count conversations: "
  const IdsFailed := "Failed to get conversation IDs: "
  const ClearFailed := "Failed to clear conversations: "

  class MemoryConversationStore {
    var conversations: map<string, Conversation>
    /** The keys in insertion order: the order `list(dict.keys())` gives. */
    var order: seq<string>

    /**
     * Every conversation is stored under its own id, and `order` lists each
     * key exactly once.
     */
    predicate Valid()
      reads this
    {
      && (forall k :: k in conversations ==> conversations[k].id.Str() == k)
      && (forall k :: k in conversations ==> k in order)
      && (forall i :: 0 <= i < |order| ==> order[i] in conversations)
      && Distinct(order)
    }

    constructor ()
      ensures Valid() && conversations == map[] && order == []
    {
      conversations := map[];
      order := [];
    }

    /** `store`: inserts or overwrites the entry under the conversation's id; a new key goes last. */
    method Store(c: Conversation, fault: Option<string>) returns (r: Result<(), InfrastructureException>)
      requires Valid()
      modifies this
      ensures Valid()
      ensures fault.Some? ==> r == Failure(MemoryRepositoryError(StoreFailed + fault.value, "store"))
      ensures fault.Some? ==> conversations == old(conversations) && order == old(order)
      ensures fault.None? ==> r.Success? && conversations == old(conversations)[c.id.Str() := c]
      ensures fault.None? ==> order == if c.id.Str() in old(conversations) then old(order) else old(order) + [c.id.Str()]
    {
      if fault.Some? {
        return Failure(MemoryRepositoryError(StoreFailed + fault.value, "store"));
      }
      var key := c.id.Str();
      if key !in conversations {
        order := order + [key];
      }
      conversations := conversations[key := c];
      return Success(());
    }

    /** `retrieve`: the conversation stored under the id (which then carries that id), or `None`. */
    method Retrieve(id: ConversationId, fault: Option<string>) returns (r: Result<Option<Conversation>, InfrastructureException>)
      requires Valid()
      ensures fault.Some? ==> r == Failure(MemoryRepositoryError(RetrieveFailed + fault.value, "retrieve"))
      ensures fault.None? ==> r.Success? && (r.value.Some? <==> id.Str() in conversations)
      ensures fault.None? && r.value.Some? ==> r.value.value == conversations[id.Str()] && r.value.value.id == id
    {
      if fault.Some? {
        return Failure(MemoryRepositoryError(RetrieveFailed + fault.value, "retrieve"));
      }
      var key := id.Str();
      if key in conversations {
        return Success(Some(conversations[key]));
      }
      return Success(None);
    }

    /**
     * `update`: replaces the entry under the conversation's id when there is
     * one; an absent id is a "not found" error and changes nothing.
     */
    method Update(c: Conversation, fault: Option<string>) returns (r: Result<(), InfrastructureException>)
      requires Valid()
      modifies this
      ensures Valid() && order == old(order)
      ensures fault.Some? ==> r == Failure(MemoryRepositoryError(UpdateFailed + fault.value, "update"))
      ensures fault.None? && c.id.Str() !in old(conversations) ==>
        r == Failure(MemoryRepositoryError(NotFoundForUpdate + c.id.Str(), "update"))
      ensures r.Failure? ==> conversations == old(conversations)
      ensures r.Success? <==> fault.None? && c.id.Str() in old(conversations)
      ensures r.Success? ==> conversations == old(conversations)[c.id.Str() := c]
    {
      if fault.Some? {
        return Failure(MemoryRepositoryError(UpdateFailed + fault.value, "update"));
      }
      var key := c.id.Str();
      if key !in conversations {
        return Failure(MemoryRepositoryError(NotFoundForUpdate + key, "update"));
      }
      conversations := conversations[key := c];
      return Success(());
    }

    /** `delete`: removes the entry and says whether there was one. */
    method Delete(id: ConversationId, fault: Option<string>) returns (r: Result<bool, InfrastructureException>)
      requires Valid()
      modifies this
      ensures Valid()
      ensures fault.Some? ==> r == Failure(MemoryRepositoryError(DeleteFailed + fault.value, "delete"))
      ensures fault.Some? ==> conversations == old(conversations) && order == old(order)
      ensures fault.None? ==> r == Success(id.Str() in old(conversations))
      ensures fault.None? ==> conversations == old(conversations) - {id.Str()} && order == Without(old(order), id.Str())
    {
      if fault.Some? {
        return Failure(MemoryRepositoryError(DeleteFailed + fault.value, "delete"));
      }
      var key := id.Str();
      if key in conversations {
        conversations := conversations - {key};
        order := Without(order, key);
        forall i | 0 <= i < |order|
          ensures order[i] in conversations
        {
          assert order[i] in order;
        }
        return Success(true);
      }
      return Success(false);
    }

    /** `count`: the number of stored conversations. */
    method Count(fault: Option<string>) returns (r: Result<nat, InfrastructureException>)
      requires Valid()
      ensures fault.Some? ==> r == Failure(MemoryRepositoryError(CountFailed + fault.value, "count"))
      ensures fault.None? ==> r == Success(|conversations|)
    {
      if fault.Some? {
        return Failure(MemoryRepositoryError(CountFailed + fault.value, "count"));
      }
      return Success(|conversations|);
    }

    /** `get_all_ids`: every key once, in insertion order, as many as `Count` reports. */
    method GetAllIds(fault: Option<string>) returns (r: Result<seq<string>, InfrastructureException>)
      requires Valid()
      ensures fault.Some? ==> r == Failure(MemoryRepositoryError(IdsFailed + fault.value, "get_all_ids"))
      ensures fault.None? ==> r.Success? && r.value == order
      ensures fault.None? ==> (forall k :: k in r.value <==> k in conversations) && Distinct(r.value)
      ensures fault.None? ==> |r.value| == |conversations|
    {
      if fault.Some? {
        return Failure(MemoryRepositoryError(IdsFailed + fault.value, "get_all_ids"));
      }
      DistinctCardinality(order);
      assert (set x | x in order) == conversations.Keys;
      return Success(order);
    }

    /** `clear`: empties the store. */
    method Clear(fault: Option<string>) returns (r: Result<(), InfrastructureException>)
      requires Valid()
      modifies this
      ensures Valid()
      ensures fault.Some? ==> r == Failure(MemoryRepositoryError(ClearFailed + fault.value, "clear"))
      ensures fault.Some? ==> conversations == old(conversations) && order == old(order)
      ensures fault.None? ==> r.Success? && conversations == map[] && order == []
    {
      if fault.Some? {
        return Failure(MemoryRepositoryError(ClearFailed + fault.value, "clear"));
      }
      conversations := map[];
      order := [];
      return Success(());
    }

    /** `health_check`: never raises; healthy unless reading the dictionary fails. */
    method HealthCheck(fault: Option<string>) returns (healthy: bool)
      ensures healthy <==> fault.None?
    {
      healthy := fault.None?;
    }
  }
}
