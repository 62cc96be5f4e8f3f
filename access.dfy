/** Access checks and API-key selection (AccessService). Each check looks a row
    up and either returns it or fails with a fixed message; the key selection
    decides, from the instance kind and the quota balance, whose key a request
    is billed to. Database reads are lookups in an explicit store. */
module Access {
  import opened Wrappers

  datatype PromptRow = PromptRow(id: int, projectId: int)

  datatype MemoryRow = MemoryRow(id: int, promptId: int)

  /** A test case, read together with the prompt it belongs to. */
  datatype TestcaseRow = TestcaseRow(id: int, prompt: PromptRow)

  datatype ApiKeyRow = ApiKeyRow(key: string)

  /** An AI vendor's name, as the error messages print it. */
  type Vendor = string

  /** The rows the checks read. An organization's key for a vendor is found by
      (organization id, vendor); the system organization id may be missing. */
  datatype Store = Store(
    prompts: map<int, PromptRow>,
    memories: map<int, MemoryRow>,
    testcases: map<int, TestcaseRow>,
    apiKeys: map<(int, Vendor), ApiKeyRow>,
    systemOrganizationId: Option<int>)

  const PromptNotFound: string := "Prompt is not found"
  const MemoryNotFound: string := "Memory is not found"
  const TestcaseNotFound: string := "Testcase is not found"
  const SystemOrganizationNotFound: string := "System organization ID not found in database"

  function UserKeyNotFound(vendor: Vendor): string
  {
    "User API key not found for " + vendor
  }

  function SystemKeyNotFound(vendor: Vendor): string
  {
    "System API key not found for " + vendor
  }

  // ---------------------------------------------------------------------------
  // Row access checks.

  /** The prompt, when it exists and belongs to the project. */
  function CheckPromptAccess(store: Store, promptId: int, projectId: int): (r: Result<PromptRow, string>)
    ensures r.Ok? <==> promptId in store.prompts && store.prompts[promptId].projectId == projectId
    ensures r.Ok? ==> r.value == store.prompts[promptId]
    ensures r.Err? ==> r.error == PromptNotFound
  {
    if promptId in store.prompts && store.prompts[promptId].projectId == projectId
    then Ok(store.prompts[promptId])
    else Err(PromptNotFound)
  }

  /** The memory with this id, when it belongs to the prompt. */
  function CheckMemoryAccess(store: Store, memoryId: int, promptId: int): (r: Result<MemoryRow, string>)
    ensures r.Ok? <==> memoryId in store.memories && store.memories[memoryId].promptId == promptId
    ensures r.Ok? ==> r.value == store.memories[memoryId]
    ensures r.Err? ==> r.error == MemoryNotFound
  {
    if memoryId in store.memories && store.memories[memoryId].promptId == promptId
    then Ok(store.memories[memoryId])
    else Err(MemoryNotFound)
  }

  /** The test case, when the prompt it belongs to is in the project. */
  function CheckTestcaseAccess(store: Store, testcaseId: int, projectId: int): (r: Result<TestcaseRow, string>)
    ensures r.Ok? <==> testcaseId in store.testcases && store.testcases[testcaseId].prompt.projectId == projectId
    ensures r.Ok? ==> r.value == store.testcases[testcaseId]
    ensures r.Err? ==> r.error == TestcaseNotFound
  {
    if testcaseId in store.testcases && store.testcases[testcaseId].prompt.projectId == projectId
    then Ok(store.testcases[testcaseId])
    else Err(TestcaseNotFound)
  }

  /** A prompt of another project is reported exactly as a missing one: the
      caller cannot tell that it exists. */
  lemma ForeignPromptLooksMissing(store: Store, promptId: int, projectId: int)
    requires promptId in store.prompts && store.prompts[promptId].projectId != projectId
    ensures CheckPromptAccess(store, promptId, projectId) ==
      CheckPromptAccess(store.(prompts := store.prompts - {promptId}), promptId, projectId)
  {
  }

  lemma ForeignMemoryLooksMissing(store: Store, memoryId: int, promptId: int)
    requires memoryId in store.memories && store.memories[memoryId].promptId != promptId
    ensures CheckMemoryAccess(store, memoryId, promptId) ==
      CheckMemoryAccess(store.(memories := store.memories - {memoryId}), memoryId, promptId)
  {
  }

  lemma ForeignTestcaseLooksMissing(store: Store, testcaseId: int, projectId: int)
    requires testcaseId in store.testcases && store.testcases[testcaseId].prompt.projectId != projectId
    ensures CheckTestcaseAccess(store, testcaseId, projectId) ==
      CheckTestcaseAccess(store.(testcases := store.testcases - {testcaseId}), testcaseId, projectId)
  {
  }

  /** Access to a test case is access to its prompt's project: when the test
      case's prompt is stored as it is embedded, the two checks agree. */
  lemma TestcaseAccessIsPromptAccess(store: Store, testcaseId: int, projectId: int)
    requires testcaseId in store.testcases
    requires var p := store.testcases[testcaseId].prompt; p.id in store.prompts && store.prompts[p.id] == p
    ensures CheckTestcaseAccess(store, testcaseId, projectId).Ok? <==>
      CheckPromptAccess(store, store.testcases[testcaseId].prompt.id, projectId).Ok?
  {
  }

  // ---------------------------------------------------------------------------
  // API-key selection.

  /** The quota record of an organization; only its balance is read. */
  datatype Quota = Quota(balance: real)

  datatype QuotaKey = QuotaKey(apiKey: ApiKeyRow, quotaUsed: bool)

  /** The outcome of a key selection together with the database reads it made:
      whether the system organization id was read, and the organizations whose
      key for the vendor was looked up, in order. */
  datatype KeyTrace = KeyTrace(result: Result<QuotaKey, string>, systemIdRead: bool, keyLookups: seq<int>)

  /** Whether the request is paid from the system's quota: always on a local
      instance, and on the cloud while the balance is positive. */
  predicate UsesSystemKey(isCloud: bool, quota: Quota)
  {
    !isCloud || quota.balance > 0.0
  }

  function LookupKey(store: Store, owner: int, vendor: Vendor): Option<ApiKeyRow>
  {
    if (owner, vendor) in store.apiKeys then Some(store.apiKeys[(owner, vendor)]) else None
  }

  /** On the cloud with no balance left, the organization's own key, not billed
      to the quota; otherwise the system organization's key, billed to it. */
  function GetApiKeyByQuota(store: Store, isCloud: bool, quota: Quota, orgId: int, vendor: Vendor): (t: KeyTrace)
    ensures t.systemIdRead <==> UsesSystemKey(isCloud, quota)
    ensures !UsesSystemKey(isCloud, quota) ==> t.keyLookups == [orgId]
    ensures UsesSystemKey(isCloud, quota) ==>
      t.keyLookups == (if store.systemOrganizationId.Some? then [store.systemOrganizationId.value] else [])
    ensures t.result.Ok? ==> t.result.value.quotaUsed == UsesSystemKey(isCloud, quota)
    ensures t.result.Ok? ==>
      (|t.keyLookups| == 1 && LookupKey(store, t.keyLookups[0], vendor) == Some(t.result.value.apiKey))
    ensures t.result.Err? <==> t.keyLookups == [] || LookupKey(store, t.keyLookups[0], vendor).None?
  {
    if !UsesSystemKey(isCloud, quota) then
      match LookupKey(store, orgId, vendor)
      case None => KeyTrace(Err(UserKeyNotFound(vendor)), false, [orgId])
      case Some(k) => KeyTrace(Ok(QuotaKey(k, false)), false, [orgId])
    else
      match store.systemOrganizationId
      case None => KeyTrace(Err(SystemOrganizationNotFound), true, [])
      case Some(sid) =>
        match LookupKey(store, sid, vendor)
        case None => KeyTrace(Err(SystemKeyNotFound(vendor)), true, [sid])
        case Some(k) => KeyTrace(Ok(QuotaKey(k, true)), true, [sid])
  }

  /** On a local instance the balance is never consulted. */
  lemma LocalIgnoresBalance(store: Store, q1: Quota, q2: Quota, orgId: int, vendor: Vendor)
    ensures GetApiKeyByQuota(store, false, q1, orgId, vendor) == GetApiKeyByQuota(store, false, q2, orgId, vendor)
  {
  }

  /** Which message a failed selection carries. */
  lemma KeySelectionErrors(store: Store, isCloud: bool, quota: Quota, orgId: int, vendor: Vendor)
    ensures var t := GetApiKeyByQuota(store, isCloud, quota, orgId, vendor);
      t.result.Err? ==>
        (!UsesSystemKey(isCloud, quota) ==> t.result.error == UserKeyNotFound(vendor)) &&
        (UsesSystemKey(isCloud, quota) && store.systemOrganizationId.None? ==>
          t.result.error == SystemOrganizationNotFound) &&
        (UsesSystemKey(isCloud, quota) && store.systemOrganizationId.Some? ==>
          t.result.error == SystemKeyNotFound(vendor))
  {
  }

  /** The selection never bills the quota for a key the organization owns, and
      never hands out the system key without billing it. */
  lemma BillingMatchesOwner(store: Store, isCloud: bool, quota: Quota, orgId: int, vendor: Vendor)
    requires store.systemOrganizationId != Some(orgId)
    ensures var t := GetApiKeyByQuota(store, isCloud, quota, orgId, vendor);
      t.result.Ok? ==> (t.result.value.quotaUsed <==> t.keyLookups[0] != orgId)
  {
  }

  /** The three user-facing messages for a missing key are distinct, so the
      caller can tell which lookup failed. */
  lemma KeyErrorsDistinct(vendor: Vendor)
    ensures UserKeyNotFound(vendor) != SystemKeyNotFound(vendor)
    ensures UserKeyNotFound(vendor) != SystemOrganizationNotFound
    ensures SystemKeyNotFound(vendor) != SystemOrganizationNotFound
  {
    assert UserKeyNotFound(vendor)[0] == 'U';
    assert SystemKeyNotFound(vendor)[7] == 'A' && SystemOrganizationNotFound[7] == 'o';
  }
}
