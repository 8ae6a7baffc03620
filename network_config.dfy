/** `EthereumNode.connect` (client/lib/ethereum/node.js): after the node and
    the read models are ready, the live network id is checked against the
    supported networks and reconciled with what `localStorage` remembers.
    `localStorage` is a map updated through `SetItem` and `Clear`; the user's
    answer to the confirmation prompt is an input, and the alert and the page
    reload are outcome tags. The network tables of `./networks` are inputs. */
module NetworkConfig {
  import opened JsValues
  import opened Connection

  const NetworkKey := "network"
  const CompanyKey := "companyAddress"
  const ExplorerKey := "etherscanSub"
  const NameKey := "networkName"

  /** `supportedNetworks`, `domains` and `names`. */
  datatype NetworkTables = NetworkTables(supported: seq<int>, domains: map<int, string>, names: map<int, string>)

  /** The reply of `getNetwork`: a transport error, or the id already read
      with `parseInt`. */
  datatype NetworkReply = NetworkError | NetworkId(id: int)

  /** What reconciliation decides: the unsupported-network alert, a page
      reload after the mismatch prompt (with storage cleared or not), or
      the new network written to storage. */
  datatype Verdict = Unsupported | Reload(cleared: bool) | Persisted

  datatype Reconciliation = Reconciliation(verdict: Verdict, storage: map<string, string>)

  /** How `connect` ends: still awaiting (a promise that has not settled),
      rejected, restarted from scratch, stopped at the alert, reloading, or
      returning the readiness flag. */
  datatype ConnectOutcome = Waiting | Failed | Restarted | UnsupportedAlert | Reloaded | Connected(ready: bool)

  /** `localStorage.getItem(key)`: null when the key is absent. */
  function GetItem(storage: map<string, string>, key: string): (r: Option<string>)
    ensures r.Some? <==> key in storage
    ensures r.Some? ==> r.value == storage[key]
  {
    if key in storage then Some(storage[key]) else None
  }

  /** A stored value counts as true when present and non-empty. */
  predicate Truthy(v: Option<string>)
  {
    v.Some? && v.value != ""
  }

  /** `formerNetwork != nID && localStorage.getItem('companyAddress')`: never
      when the decimal form of the id is stored or no company is; with no
      network stored, exactly when a company is. */
  function Mismatch(storage: map<string, string>, nID: int): (r: bool)
    ensures GetItem(storage, NetworkKey) == Some(IntToString(nID)) ==> !r
    ensures !Truthy(GetItem(storage, CompanyKey)) ==> !r
    ensures GetItem(storage, NetworkKey).None? ==> (r <==> Truthy(GetItem(storage, CompanyKey)))
  {
    LooseEqualsWritten(nID);
    !LooseEquals(GetItem(storage, NetworkKey), nID) && Truthy(GetItem(storage, CompanyKey))
  }

  /** A different network id remembered in its decimal form is a mismatch
      exactly when a company is remembered: the switched-network prompt. */
  lemma SwitchedNetworkMismatch(storage: map<string, string>, m: int, nID: int)
    requires GetItem(storage, NetworkKey) == Some(IntToString(m)) && m != nID
    ensures Mismatch(storage, nID) <==> Truthy(GetItem(storage, CompanyKey))
  {
    LooseEqualsWritten(m);
  }

  /** `domains[nID] || ''`. */
  function ExplorerSubdomain(tables: NetworkTables, nID: int): string
  {
    if nID in tables.domains then tables.domains[nID] else ""
  }

  /** `names[nID]` as `setItem` stores it: a missing name becomes "undefined". */
  function NetworkName(tables: NetworkTables, nID: int): string
  {
    if nID in tables.names then tables.names[nID] else "undefined"
  }

  /** The three `setItem` writes of a successful bootstrap: the id in decimal,
      the explorer subdomain and the name; every other entry is kept. */
  function Persist(storage: map<string, string>, nID: int, tables: NetworkTables): (r: map<string, string>)
    ensures GetItem(r, NetworkKey) == Some(IntToString(nID))
    ensures GetItem(r, ExplorerKey) == Some(ExplorerSubdomain(tables, nID))
    ensures GetItem(r, NameKey) == Some(NetworkName(tables, nID))
    ensures forall k :: k != NetworkKey && k != ExplorerKey && k != NameKey ==> GetItem(r, k) == GetItem(storage, k)
  {
    storage[NetworkKey := IntToString(nID)][ExplorerKey := ExplorerSubdomain(tables, nID)][NameKey := NetworkName(tables, nID)]
  }

  function Reconcile(storage: map<string, string>, nID: int, confirmed: bool, tables: NetworkTables): (r: Reconciliation)
    ensures r.verdict.Unsupported? <==> nID !in tables.supported
    ensures r.verdict.Reload? <==> nID in tables.supported && Mismatch(storage, nID)
    ensures r.verdict.Reload? ==> r.verdict.cleared == confirmed
    ensures r.verdict.Unsupported? ==> r.storage == storage
    ensures r.verdict.Reload? ==> r.storage == (if confirmed then map[] else storage)
    ensures r.verdict.Persisted? ==> r.storage == Persist(storage, nID, tables)
  {
    if nID !in tables.supported then Reconciliation(Unsupported, storage)
    else if Mismatch(storage, nID) then Reconciliation(Reload(confirmed), if confirmed then map[] else storage)
    else Reconciliation(Persisted, Persist(storage, nID, tables))
  }

  /** On a mismatch storage is wiped exactly when the user confirms, the page
      reloads either way, and the `network` entry is never rewritten. */
  lemma MismatchReloads(storage: map<string, string>, nID: int, confirmed: bool, tables: NetworkTables)
    requires nID in tables.supported && Mismatch(storage, nID)
    ensures Reconcile(storage, nID, confirmed, tables).verdict == Reload(confirmed)
    ensures confirmed ==> Reconcile(storage, nID, confirmed, tables).storage == map[]
    ensures !confirmed ==> Reconcile(storage, nID, confirmed, tables).storage == storage
    ensures GetItem(Reconcile(storage, nID, confirmed, tables).storage, NetworkKey) in {None, GetItem(storage, NetworkKey)}
  {
  }

  /** Otherwise the new network and its metadata are written and every
      other entry, the company address among them, is kept. */
  lemma PersistWritesMetadata(storage: map<string, string>, nID: int, confirmed: bool, tables: NetworkTables)
    requires nID in tables.supported && !Mismatch(storage, nID)
    ensures
      var r := Reconcile(storage, nID, confirmed, tables);
      && r.verdict == Persisted
      && GetItem(r.storage, NetworkKey) == Some(IntToString(nID))
      && GetItem(r.storage, ExplorerKey) == Some(ExplorerSubdomain(tables, nID))
      && GetItem(r.storage, NameKey) == Some(NetworkName(tables, nID))
      && (forall k :: k != NetworkKey && k != ExplorerKey && k != NameKey ==> GetItem(r.storage, k) == GetItem(storage, k))
  {
  }

  /** The company address survives a successful bootstrap. */
  lemma PersistKeepsCompany(storage: map<string, string>, nID: int, confirmed: bool, tables: NetworkTables)
    requires Reconcile(storage, nID, confirmed, tables).verdict == Persisted
    ensures GetItem(Reconcile(storage, nID, confirmed, tables).storage, CompanyKey) == GetItem(storage, CompanyKey)
  {
  }

  /** Bootstrapping again on the same network finds no mismatch and writes
      the same entries: reconciliation is idempotent. */
  lemma ReconcileIdempotent(storage: map<string, string>, nID: int, confirmed: bool, confirmedAgain: bool, tables: NetworkTables)
    requires Reconcile(storage, nID, confirmed, tables).verdict == Persisted
    ensures
      var once := Reconcile(storage, nID, confirmed, tables).storage;
      Reconcile(once, nID, confirmedAgain, tables) == Reconciliation(Persisted, once)
  {
    var once := Reconcile(storage, nID, confirmed, tables).storage;
    assert GetItem(once, NetworkKey) == Some(IntToString(nID));
    LooseEqualsWritten(nID);
    assert !Mismatch(once, nID);
    assert Persist(once, nID, tables) == once;
  }

  /** A different network after the company was set up asks before going on. */
  lemma ScenarioSwitchedNetwork(tables: NetworkTables)
    requires 42 in tables.supported
    ensures Reconcile(map[NetworkKey := "5", CompanyKey := "0xabc"], 42, false, tables).verdict == Reload(false)
    ensures Reconcile(map[NetworkKey := "5", CompanyKey := "0xabc"], 42, true, tables) == Reconciliation(Reload(true), map[])
  {
  }

  /** With no network remembered, a remembered company still counts as a
      mismatch (null is loosely equal to no number); with no company the
      live network is written without asking. */
  lemma ScenarioNoNetworkRemembered(nID: int, tables: NetworkTables)
    requires nID in tables.supported
    ensures Reconcile(map[CompanyKey := "0xabc"], nID, false, tables).verdict == Reload(false)
    ensures Reconcile(map[], nID, false, tables).verdict == Persisted
  {
  }

  class EthereumNode {
    /** The browser's `localStorage`. */
    var localStorage: map<string, string>

    constructor (stored: map<string, string>)
      ensures localStorage == stored
    {
      localStorage := stored;
    }

    method SetItem(key: string, value: string)
      modifies this
      ensures localStorage == old(localStorage)[key := value]
    {
      localStorage := localStorage[key := value];
    }

    method Clear()
      modifies this
      ensures localStorage == map[]
    {
      localStorage := map[];
    }

    /** `connect`: waits for the node, then for the read models; a rejected
        gate restarts the whole procedure in the desktop shell and fails it in
        the browser; then reads the network id and reconciles. */
    method Connect(isElectron: bool, probes: seq<Probe>, accounts: GateInputs, blocks: GateInputs,
                   network: NetworkReply, tables: NetworkTables, confirmed: bool)
      returns (outcome: ConnectOutcome)
      modifies this
      ensures !NodeReady(probes) ==> outcome == Waiting && localStorage == old(localStorage)
      ensures NodeReady(probes) && CollectionsReadiness(accounts, blocks).Pending? ==>
        outcome == Waiting && localStorage == old(localStorage)
      ensures NodeReady(probes) && CollectionsReadiness(accounts, blocks).Rejected? ==>
        outcome == (if isElectron then Restarted else Failed) && localStorage == old(localStorage)
      ensures NodeReady(probes) && CollectionsReadiness(accounts, blocks).Resolved? && network.NetworkError? ==>
        outcome == Failed && localStorage == old(localStorage)
      ensures NodeReady(probes) && CollectionsReadiness(accounts, blocks).Resolved? && network.NetworkId? ==>
        var r := Reconcile(old(localStorage), network.id, confirmed, tables);
        && localStorage == r.storage
        && outcome == match r.verdict
                      case Unsupported => UnsupportedAlert
                      case Reload(_) => Reloaded
                      case Persisted => Connected(true)
    {
      var nodeReady, _ := InitConnection(probes);
      if !nodeReady.Resolved? {
        outcome := Waiting;
        return;
      }
      var collectionsReady := false;
      var gate := CollectionsReadiness(accounts, blocks);
      if gate.Pending? {
        outcome := Waiting;
        return;
      }
      if gate.Rejected? {
        outcome := if isElectron then Restarted else Failed;
        return;
      }
      collectionsReady := gate.value;
      if network.NetworkError? {
        outcome := Failed;
        return;
      }
      var nID := network.id;
      if nID !in tables.supported {
        outcome := UnsupportedAlert;
        return;
      }
      var formerNetwork := GetItem(localStorage, NetworkKey);
      if !LooseEquals(formerNetwork, nID) && Truthy(GetItem(localStorage, CompanyKey)) {
        if confirmed {
          Clear();
        }
        outcome := Reloaded;
        return;
      }
      SetItem(NetworkKey, IntToString(nID));
      SetItem(ExplorerKey, ExplorerSubdomain(tables, nID));
      SetItem(NameKey, NetworkName(tables, nID));
      outcome := Connected(nodeReady.value && collectionsReady);
    }
  }
}
