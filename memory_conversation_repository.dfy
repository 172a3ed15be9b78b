/**
 * The in-memory repository adapter: forwards every operation to a memory
 * store and turns the store's memory-repository errors into application
 * errors, or into `ConversationNotFoundException` when an update's error
 * message says "not found".
 */
module MemoryConversationRepositories {
  import opened Wrappers
  import opened Text
  import opened Errors
  import opened DomainExceptions
  import opened ApplicationExceptions
  import opened InfrastructureExceptions
  import opened ConversationIds
  import opened Conversations
  import opened MemoryStore
  import opened ConversationRepository

  const SaveFailed := "Failed to save conversation: "
  const FindFailed := "Failed to find conversation: "
  const RepositoryUpdateFailed := "Failed to update conversation: "
  const RepositoryDeleteFailed := "Failed to delete conversation: "
  const RepositoryCountFailed := "Failed to count conversations: "
  const RepositoryIdsFailed := "Failed to get conversation IDs: "
  const RepositoryClearFailed := "Failed to clear conversations: "

  /** `RepositoryException(f"{prefix}{e.message}")`. */
  function Wrapped(prefix: string, e: InfrastructureException): (r: Error)
    ensures IsRepositoryError(r)
  {
    Application(RepositoryError(prefix + e.Message()))
  }

  /**
   * How `update` reports a store error: `ConversationNotFoundException` for
   * the conversation's id when the lowercased message contains "not found",
   * a repository error otherwise.
   */
  function UpdateError(e: InfrastructureException, id: string): (r: Error)
    ensures Contains(Lower(e.Message()), "not found") <==> r == Domain(ConversationNotFound(id))
    ensures !Contains(Lower(e.Message()), "not found") ==> r == Wrapped(RepositoryUpdateFailed, e)
  {
    if Contains(Lower(e.Message()), "not found") then Domain(ConversationNotFound(id))
    else Wrapped(RepositoryUpdateFailed, e)
  }

  class MemoryConversationRepository {
    const store: MemoryConversationStore

    predicate Valid()
      reads this, store
    {
      store.Valid()
    }

    /** `MemoryConversationRepository(memory_store)`: the given store, or a new empty one. */
    constructor (memoryStore: MemoryConversationStore?)
      requires memoryStore != null ==> memoryStore.Valid()
      ensures Valid()
      ensures memoryStore != null ==> store == memoryStore
      ensures memoryStore == null ==> fresh(store) && store.conversations == map[]
    {
      if memoryStore != null {
        store := memoryStore;
      } else {
        store := new MemoryConversationStore();
      }
    }

    /** `save`: the store's `store`; its failure becomes a repository error. */
    method Save(c: Conversation, fault: Option<string>) returns (r: Result<(), Error>)
      requires Valid()
      modifies store
      ensures Valid()
      ensures SaveContract(old(store.conversations), store.conversations, c, r)
      ensures r.Success? <==> fault.None?
      ensures fault.Some? ==> r == Failure(Wrapped(SaveFailed, MemoryRepositoryError(StoreFailed + fault.value, "store")))
    {
      var s := store.Store(c, fault);
      if s.Failure? {
        return Failure(Wrapped(SaveFailed, s.error));
      }
      return Success(());
    }

    /** `find_by_id`: the store's `retrieve`, `None` passed through. */
    method FindById(id: ConversationId, fault: Option<string>) returns (r: Result<Option<Conversation>, Error>)
      requires Valid()
      ensures FindContract(store.conversations, id, r)
      ensures r.Success? <==> fault.None?
      ensures r.Success? && r.value.Some? ==> r.value.value.id == id
      ensures fault.Some? ==> r == Failure(Wrapped(FindFailed, MemoryRepositoryError(RetrieveFailed + fault.value, "retrieve")))
    {
      var s := store.Retrieve(id, fault);
      if s.Failure? {
        return Failure(Wrapped(FindFailed, s.error));
      }
      return Success(s.value);
    }

    /**
     * `update`: looks the id up first, so an absent id is
     * `ConversationNotFoundException` and the store is never asked; then the
     * store's `update`. `retrieveFault` and `updateFault` stand for failures of
     * the two store calls.
     */
    method Update(c: Conversation, retrieveFault: Option<string>, updateFault: Option<string>) returns (r: Result<(), Error>)
      requires Valid()
      modifies store
      ensures Valid()
      ensures UpdateContract(old(store.conversations), store.conversations, c, r)
      ensures retrieveFault.None? && c.id.Str() !in old(store.conversations) ==> r == Failure(Domain(ConversationNotFound(c.id.Str())))
      ensures r.Success? <==> retrieveFault.None? && updateFault.None? && c.id.Str() in old(store.conversations)
      ensures retrieveFault.Some? ==>
        r == Failure(UpdateError(MemoryRepositoryError(RetrieveFailed + retrieveFault.value, "retrieve"), c.id.Str()))
      ensures retrieveFault.None? && c.id.Str() in old(store.conversations) && updateFault.Some? ==>
        r == Failure(UpdateError(MemoryRepositoryError(UpdateFailed + updateFault.value, "update"), c.id.Str()))
    {
      var existing := store.Retrieve(c.id, retrieveFault);
      if existing.Failure? {
        return Failure(UpdateError(existing.error, c.id.Str()));
      }
      if existing.value.None? {
        return Failure(Domain(ConversationNotFound(c.id.Str())));
      }
      var s := store.Update(c, updateFault);
      if s.Failure? {
        return Failure(UpdateError(s.error, c.id.Str()));
      }
      return Success(());
    }

    /** `delete`: the store's answer, its failure a repository error. */
    method Delete(id: ConversationId, fault: Option<string>) returns (r: Result<bool, Error>)
      requires Valid()
      modifies store
      ensures Valid()
      ensures DeleteContract(old(store.conversations), store.conversations, id, r)
      ensures r.Success? <==> fault.None?
      ensures fault.Some? ==> r == Failure(Wrapped(RepositoryDeleteFailed, MemoryRepositoryError(DeleteFailed + fault.value, "delete")))
    {
      var s := store.Delete(id, fault);
      if s.Failure? {
        return Failure(Wrapped(RepositoryDeleteFailed, s.error));
      }
      return Success(s.value);
    }

    /** `count_active_conversations`: the store's count, its failure a repository error. */
    method CountActiveConversations(fault: Option<string>) returns (r: Result<nat, Error>)
      requires Valid()
      ensures CountContract(store.conversations, r)
      ensures r.Success? <==> fault.None?
      ensures fault.Some? ==> r == Failure(Wrapped(RepositoryCountFailed, MemoryRepositoryError(CountFailed + fault.value, "count")))
    {
      var s := store.Count(fault);
      if s.Failure? {
        return Failure(Wrapped(RepositoryCountFailed, s.error));
      }
      return Success(s.value);
    }

    /** `health_check`: the store's answer; it never fails. */
    method HealthCheck(fault: Option<string>) returns (healthy: bool)
      ensures healthy <==> fault.None?
    {
      healthy := store.HealthCheck(fault);
    }

    /** `get_all_conversation_ids`: every stored id once, in insertion order. */
    method GetAllConversationIds(fault: Option<string>) returns (r: Result<seq<string>, Error>)
      requires Valid()
      ensures r.Success? <==> fault.None?
      ensures r.Success? ==> (forall k :: k in r.value <==> k in store.conversations) && Distinct(r.value)
      ensures r.Success? ==> |r.value| == |store.conversations|
      ensures fault.Some? ==> r == Failure(Wrapped(RepositoryIdsFailed, MemoryRepositoryError(IdsFailed + fault.value, "get_all_ids")))
    {
      var s := store.GetAllIds(fault);
      if s.Failure? {
        return Failure(Wrapped(RepositoryIdsFailed, s.error));
      }
      return Success(s.value);
    }

    /** `clear_all_conversations`: empties the store, its failure a repository error. */
    method ClearAllConversations(fault: Option<string>) returns (r: Result<(), Error>)
      requires Valid()
      modifies store
      ensures Valid()
      ensures r.Success? <==> fault.None?
      ensures r.Success? ==> store.conversations == map[]
      ensures r.Failure? ==> store.conversations == old(store.conversations)
      ensures fault.Some? ==> r == Failure(Wrapped(RepositoryClearFailed, MemoryRepositoryError(ClearFailed + fault.value, "clear")))
    {
      var s := store.Clear(fault);
      if s.Failure? {
        return Failure(Wrapped(RepositoryClearFailed, s.error));
      }
      return Success(());
    }
  }

  // ---------------------------------------------------------------------------
  // The "not found" translation

  /**
   * The store's own update error says "not found", so the adapter would
   * report it as `ConversationNotFoundException`; the adapter's lookup before
   * the store's update makes that error unreachable.
   */
  lemma StoreNotFoundIsTranslated(key: string)
    ensures UpdateError(MemoryRepositoryError(NotFoundForUpdate + key, "update"), key) == Domain(ConversationNotFound(key))
  {
    var d := NotFoundForUpdate + key;
    var low := Lower(d);
    var w := "not found";
    forall k | 0 <= k < |w|
      ensures low[13 + k] == w[k]
    {
      assert low[13 + k] == LowerChar(d[13 + k]);
    }
    assert low[13..22] == w;
    assert OccursAt(low, w, 13);
    ContainsIffOccurs(low, w);
    MemoryErrorKeepsDetail(d, "update", w);
  }

  /**
   * Any store failure during an update whose text mentions "not found" is
   * reported as `ConversationNotFoundException`, though the conversation is stored.
   */
  lemma FaultSayingNotFoundIsReportedAsMissing(fault: string, key: string)
    requires Contains(Lower(fault), "not found")
    ensures UpdateError(MemoryRepositoryError(UpdateFailed + fault, "update"), key) == Domain(ConversationNotFound(key))
    ensures UpdateError(MemoryRepositoryError(RetrieveFailed + fault, "retrieve"), key) == Domain(ConversationNotFound(key))
  {
    LowerAppend(UpdateFailed, fault);
    ContainsSuffix(Lower(UpdateFailed), Lower(fault), "not found");
    MemoryErrorKeepsDetail(UpdateFailed + fault, "update", "not found");
    LowerAppend(RetrieveFailed, fault);
    ContainsSuffix(Lower(RetrieveFailed), Lower(fault), "not found");
    MemoryErrorKeepsDetail(RetrieveFailed + fault, "retrieve", "not found");
  }
}
