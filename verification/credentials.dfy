/** Provider credentials: which stored key a generation uses (src/App.tsx:850-853)
    and how the stored key rows are merged on sign-in (src/App.tsx:547-554). */
module Credentials {
  import opened Common

  /** The four services the key settings know, `keyof ApiKeys`. */
  datatype Provider = Gemini | OpenAi | Claude | Groq

  /** One secret per provider; the empty string means "not configured". */
  datatype ApiKeys = ApiKeys(gemini: string, openai: string, claude: string, groq: string)

  const EmptyKeys: ApiKeys := ApiKeys("", "", "", "")

  function KeyOf(keys: ApiKeys, p: Provider): string {
    match p
    case Gemini => keys.gemini
    case OpenAi => keys.openai
    case Claude => keys.claude
    case Groq => keys.groq
  }

  /** The service name a provider is stored under. */
  function ServiceName(p: Provider): string {
    match p
    case Gemini => "gemini"
    case OpenAi => "openai"
    case Claude => "claude"
    case Groq => "groq"
  }

  /** The keys with the entry for `p` replaced. */
  function WithKey(keys: ApiKeys, p: Provider, value: string): (r: ApiKeys)
    ensures KeyOf(r, p) == value
    ensures forall q :: q != p ==> KeyOf(r, q) == KeyOf(keys, q)
  {
    match p
    case Gemini => keys.(gemini := value)
    case OpenAi => keys.(openai := value)
    case Claude => keys.(claude := value)
    case Groq => keys.(groq := value)
  }

  /** A resolved credential: the key that passed the check, and the key the
      client is actually constructed with. */
  datatype Credential = Credential(usable: string, transport: string)

  /** `MissingCredential`: no usable key for the selected provider. */
  datatype CredentialError = MissingCredential(provider: Provider)

  /** Key selection for one generation. `env` is the build-time
      `GEMINI_API_KEY`, with the empty string standing for `undefined`.
      Only Gemini falls back to it; the client of any other provider is
      built from `apiKeys.gemini || env || ''`. */
  function Resolve(keys: ApiKeys, p: Provider, env: string): (r: Result<Credential, CredentialError>)
    ensures KeyOf(keys, p) != "" ==> r.Ok? && r.value.usable == KeyOf(keys, p)
    ensures KeyOf(keys, p) == "" && p == Gemini ==>
              if env != "" then r.Ok? && r.value.usable == env else r == Err(MissingCredential(Gemini))
    ensures KeyOf(keys, p) == "" && p != Gemini ==> r == Err(MissingCredential(p))
    ensures r.Ok? ==> r.value.usable != ""
    ensures r.Ok? && p == Gemini ==> r.value.transport == r.value.usable
    ensures r.Ok? && p != Gemini ==> r.value.transport == (if keys.gemini != "" then keys.gemini else env)
  {
    var usable := if KeyOf(keys, p) != "" then KeyOf(keys, p) else if p == Gemini then env else "";
    if usable == "" then
      Err(MissingCredential(p))
    else
      var fallback := if keys.gemini != "" then keys.gemini else if env != "" then env else "";
      Ok(Credential(usable, if p == Gemini then usable else fallback))
  }

  /** A generation can start exactly when the selected provider has a key,
      or it is Gemini and the environment supplies one. The Gemini key never
      rescues another provider, although that provider's client is built
      from it. */
  lemma ResolveSucceedsIff(keys: ApiKeys, p: Provider, env: string)
    ensures Resolve(keys, p, env).Ok? <==> KeyOf(keys, p) != "" || (p == Gemini && env != "")
  {
  }

  /** One row of the `api_keys` table. */
  datatype KeyRow = KeyRow(serviceName: string, keyValue: string)

  /** The provider a stored service name denotes, if any. */
  function ProviderNamed(name: string): (r: Option<Provider>)
    ensures r.Some? ==> ServiceName(r.value) == name
    ensures r.None? ==> forall p :: ServiceName(p) != name
  {
    if name == "gemini" then Some(Gemini)
    else if name == "openai" then Some(OpenAi)
    else if name == "claude" then Some(Claude)
    else if name == "groq" then Some(Groq)
    else None
  }

  /** The index of the last row stored under `name`, or -1 when there is
      none: that row names the service and no later row does. */
  function LastIndex(rows: seq<KeyRow>, name: string): (k: int)
    ensures -1 <= k < |rows|
    ensures k >= 0 ==> rows[k].serviceName == name
    ensures forall j :: k < j < |rows| ==> rows[j].serviceName != name
    decreases |rows|
  {
    if rows == [] then -1
    else if rows[|rows| - 1].serviceName == name then |rows| - 1
    else LastIndex(rows[..|rows| - 1], name)
  }

  /** The value of the last row stored under `p`'s service name; none
      exactly when no row names it. */
  function LastValue(rows: seq<KeyRow>, p: Provider): (r: Option<string>)
    ensures r.None? <==> forall i :: 0 <= i < |rows| ==> rows[i].serviceName != ServiceName(p)
  {
    var k := LastIndex(rows, ServiceName(p));
    if k < 0 then None else Some(rows[k].keyValue)
  }

  /** One iteration of the merge loop: a row naming a known service
      overwrites that provider's key and no other; any other row is ignored. */
  function ApplyRow(keys: ApiKeys, row: KeyRow): (r: ApiKeys)
    ensures forall p :: KeyOf(r, p) == if row.serviceName == ServiceName(p) then row.keyValue else KeyOf(keys, p)
  {
    match ProviderNamed(row.serviceName)
    case Some(q) => WithKey(keys, q, row.keyValue)
    case None => keys
  }

  /** The sign-in merge: starting from the current keys, every row naming a
      known service overwrites that entry, in row order; other rows are
      ignored. Each provider ends with the value of the last row naming it,
      or its previous key when no row does: the last row wins. */
  function MergeKeys(keys: ApiKeys, rows: seq<KeyRow>): (r: ApiKeys)
    ensures forall p :: KeyOf(r, p) == LastValue(rows, p).GetOr(KeyOf(keys, p))
    decreases |rows|
  {
    if rows == [] then keys
    else
      LastValueSnoc(rows);
      ApplyRow(MergeKeys(keys, rows[..|rows| - 1]), rows[|rows| - 1])
  }

  /** The last value under a name is the final row's when it carries the
      name, and otherwise the last value among the earlier rows. */
  lemma {:induction false} LastValueSnoc(rows: seq<KeyRow>)
    requires rows != []
    ensures forall p :: LastValue(rows, p) ==
              if rows[|rows| - 1].serviceName == ServiceName(p) then Some(rows[|rows| - 1].keyValue)
              else LastValue(rows[..|rows| - 1], p)
  {
    var init := rows[..|rows| - 1];
    forall p ensures LastValue(rows, p) ==
        if rows[|rows| - 1].serviceName == ServiceName(p) then Some(rows[|rows| - 1].keyValue)
        else LastValue(init, p) {
      var k := LastIndex(init, ServiceName(p));
      assert k >= 0 ==> rows[k] == init[k];
    }
  }

  /** The merge walks the rows front to back, as `forEach` does: merging
      `[row] + rest` is applying `row` first and then merging `rest`. */
  lemma {:induction false} MergeKeysFrontFirst(keys: ApiKeys, row: KeyRow, rest: seq<KeyRow>)
    ensures MergeKeys(keys, [row] + rest) == MergeKeys(ApplyRow(keys, row), rest)
    decreases |rest|
  {
    if rest != [] {
      var init := rest[..|rest| - 1];
      assert ([row] + rest)[..|rest|] == [row] + init;
      assert ([row] + rest)[|rest|] == rest[|rest| - 1];
      MergeKeysFrontFirst(keys, row, init);
    }
  }

  /** Rows that name no known service leave the keys unchanged. */
  lemma {:induction false} UnknownRowsIgnored(keys: ApiKeys, rows: seq<KeyRow>)
    requires forall i :: 0 <= i < |rows| ==> ProviderNamed(rows[i].serviceName).None?
    ensures MergeKeys(keys, rows) == keys
    decreases |rows|
  {
    if rows != [] {
      UnknownRowsIgnored(keys, rows[..|rows| - 1]);
    }
  }
}
