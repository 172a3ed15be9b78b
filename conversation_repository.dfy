/**
 * The repository port: what any conversation repository promises, stated on
 * the map from id strings to conversations before and after each operation.
 * A repository implementation proves its methods against these predicates.
 */
module ConversationRepository {
  import opened Wrappers
  import opened Errors
  import opened DomainExceptions
  import opened ApplicationExceptions
  import opened ConversationIds
  import opened Conversations

  /** A `RepositoryException`. */
  predicate IsRepositoryError(e: Error) {
    e.Application? && e.application.RepositoryError?
  }

  /** `save`: the conversation is stored under its id; a failure is a repository error and stores nothing. */
  predicate SaveContract(before: map<string, Conversation>, after: map<string, Conversation>, c: Conversation, r: Result<(), Error>) {
    if r.Success? then after == before[c.id.Str() := c]
    else IsRepositoryError(r.error) && after == before
  }

  /** `find_by_id`: the conversation stored under the id, or `None` when there is none. */
  predicate FindContract(m: map<string, Conversation>, id: ConversationId, r: Result<Option<Conversation>, Error>) {
    if r.Success? then r.value == (if id.Str() in m then Some(m[id.Str()]) else None)
    else IsRepositoryError(r.error)
  }

  /**
   * `update`: succeeds only on a stored id, replacing that entry; fails with
   * `ConversationNotFoundException` or a repository error, changing nothing.
   */
  predicate UpdateContract(before: map<string, Conversation>, after: map<string, Conversation>, c: Conversation, r: Result<(), Error>) {
    if r.Success? then c.id.Str() in before && after == before[c.id.Str() := c]
    else after == before && (r.error == Domain(ConversationNotFound(c.id.Str())) || IsRepositoryError(r.error))
  }

  /** `delete`: true exactly when a conversation was removed; nothing else is removed. */
  predicate DeleteContract(before: map<string, Conversation>, after: map<string, Conversation>, id: ConversationId, r: Result<bool, Error>) {
    if r.Success? then r.value == (id.Str() in before) && after == before - {id.Str()}
    else IsRepositoryError(r.error) && after == before
  }

  /** `count_active_conversations`: the number stored. */
  predicate CountContract(m: map<string, Conversation>, r: Result<nat, Error>) {
    if r.Success? then r.value == |m| else IsRepositoryError(r.error)
  }

  // ---------------------------------------------------------------------------
  // Consequences every repository shares

  /** A successful save is visible to the next lookup, and grows the count by one exactly for a new id. */
  lemma SaveThenFind(before: map<string, Conversation>, after: map<string, Conversation>, c: Conversation, found: Option<Conversation>)
    requires SaveContract(before, after, c, Success(()))
    requires FindContract(after, c.id, Success(found))
    ensures found == Some(c)
    ensures |after| == if c.id.Str() in before then |before| else |before| + 1
  {
    if c.id.Str() in before {
      assert after.Keys == before.Keys;
    } else {
      assert after.Keys == before.Keys + {c.id.Str()};
    }
  }

  /** A delete that reports true shrinks the count by one, and a later lookup finds nothing. */
  lemma DeleteThenFind(before: map<string, Conversation>, after: map<string, Conversation>, id: ConversationId, found: Option<Conversation>)
    requires DeleteContract(before, after, id, Success(true))
    requires FindContract(after, id, Success(found))
    ensures found == None
    ensures |after| == |before| - 1
  {
    assert after.Keys == before.Keys - {id.Str()};
  }

  /** An update never changes which ids are stored or how many there are. */
  lemma UpdateKeepsIds(before: map<string, Conversation>, after: map<string, Conversation>, c: Conversation, r: Result<(), Error>)
    requires UpdateContract(before, after, c, r)
    ensures after.Keys == before.Keys && |after| == |before|
  {
    if r.Success? {
      assert after.Keys == before.Keys;
    }
  }

  /** An update of an id that is not stored cannot succeed. */
  lemma UpdateNeedsStoredId(before: map<string, Conversation>, after: map<string, Conversation>, c: Conversation, r: Result<(), Error>)
    requires UpdateContract(before, after, c, r) && c.id.Str() !in before
    ensures r.Failure? && after == before
  {
  }
}
