/** Validating an import request and expanding it into attempts. */
module ImportPlan {
  import opened Wrappers
  import opened Text

  datatype ChainConfig = ChainConfig(chain: nat, assets: seq<nat>)
  datatype Defaults = Defaults(chain: nat, assets: seq<nat>, configs: seq<ChainConfig>)
  datatype Row = Row(rowNumber: int, address: string)
  datatype Request = Request(defaults: Defaults, rows: seq<Row>)
  datatype AttemptSeed = AttemptSeed(rowNumber: int, chain: nat, assets: seq<nat>)
  datatype Plan = Plan(chain: nat, assets: seq<nat>, configs: seq<ChainConfig>, totalRows: int,
      attempts: seq<AttemptSeed>)

  datatype Error =
    | RowsRequired | ConfigsRequired | AssetsRequired | ChainNotUnique | TooManyAttempts
    | RowNumberNotPositive | AddressRequired | RowNumberNotUnique | AddressNotUnique

  const USIZE_MAX := 0xFFFF_FFFF_FFFF_FFFF
  const I32_MAX := 0x7FFF_FFFF

  function EffectiveConfigs(defaults: Defaults): (r: seq<ChainConfig>)
    ensures r != []
  {
    if defaults.configs == [] then [ChainConfig(defaults.chain, defaults.assets)] else defaults.configs
  }

  // checked_mul on usize, then a conversion to i32.
  function AttemptCount(rows: nat, configs: nat): (r: Result<int, Error>)
    ensures r == if rows * configs <= 2147483647 then Ok(rows * configs) else Err(TooManyAttempts)
  {
    if rows * configs > USIZE_MAX then Err(TooManyAttempts)
    else if rows * configs > I32_MAX then Err(TooManyAttempts)
    else Ok(rows * configs)
  }

  // ---------- The plan ----------

  function SeedFor(row: Row, config: ChainConfig): AttemptSeed {
    AttemptSeed(row.rowNumber, config.chain, config.assets)
  }

  // The attempt pairing row k / m with config k % m.
  ghost predicate RowMajor(attempts: seq<AttemptSeed>, rows: seq<Row>, configs: seq<ChainConfig>) {
    && configs != [] && |attempts| == |rows| * |configs|
    && forall k :: 0 <= k < |attempts| ==>
         k / |configs| < |rows| && attempts[k] == SeedFor(rows[k / |configs|], configs[k % |configs|])
  }

  lemma ProductsAreApart(d: int, m: nat)
    ensures d >= 1 ==> d * m >= m
    ensures d <= -1 ==> d * m + m <= 0
  {
  }

  lemma DivideBack(i: nat, j: nat, m: nat)
    requires j < m
    ensures (i * m + j) / m == i && (i * m + j) % m == j
  {
    var q := (i * m + j) / m;
    assert q * m + (i * m + j) % m == i * m + j;
    assert (q - i) * m == j - (i * m + j) % m;
    ProductsAreApart(q - i, m);
  }

  // The position of pair (i, j) is i * m + j.
  lemma PairIndex(i: nat, j: nat, n: nat, m: nat)
    requires i < n && j < m
    ensures i * m + j < n * m && (i * m + j) / m == i && (i * m + j) % m == j
  {
    ProductsAreApart(n - i, m);
    assert (n - i) * m == n * m - i * m;
    DivideBack(i, j, m);
  }

  // A prefix of the row-major product.
  ghost predicate Filled(attempts: seq<AttemptSeed>, rows: seq<Row>, configs: seq<ChainConfig>) {
    && configs != []
    && forall k :: 0 <= k < |attempts| ==>
         k / |configs| < |rows| && attempts[k] == SeedFor(rows[k / |configs|], configs[k % |configs|])
  }

  lemma FillOne(attempts: seq<AttemptSeed>, rows: seq<Row>, configs: seq<ChainConfig>, i: nat, j: nat)
    requires Filled(attempts, rows, configs) && i < |rows| && j < |configs| && |attempts| == i * |configs| + j
    ensures Filled(attempts + [SeedFor(rows[i], configs[j])], rows, configs)
  {
    DivideBack(i, j, |configs|);
  }

  lemma NextRow(i: nat, m: nat)
    ensures i * m + m == (i + 1) * m
  {
  }

  // The two nested loops produce the row-major product; it has total_rows attempts and fits an i32.
  method CreatePlan(request: Request) returns (r: Result<Plan, Error>)
    ensures r.Ok? <==> |request.rows| * |EffectiveConfigs(request.defaults)| <= 2147483647
    ensures r.Err? ==> r.error == TooManyAttempts
    ensures r.Ok? ==>
              && r.value.configs == EffectiveConfigs(request.defaults)
              && (request.defaults.configs != [] ==> r.value.configs == request.defaults.configs)
              && (request.defaults.configs == [] ==>
                    |r.value.configs| == 1 && r.value.chain == request.defaults.chain
                    && r.value.assets == request.defaults.assets)
              && r.value.chain == r.value.configs[0].chain && r.value.assets == r.value.configs[0].assets
              && r.value.totalRows == |r.value.attempts| <= I32_MAX
              && RowMajor(r.value.attempts, request.rows, r.value.configs)
  {
    var configs := EffectiveConfigs(request.defaults);
    var total := AttemptCount(|request.rows|, |configs|);
    if total.Err? {
      return Err(total.error);
    }
    var attempts: seq<AttemptSeed> := [];
    for i := 0 to |request.rows|
      invariant |attempts| == i * |configs| && Filled(attempts, request.rows, configs)
    {
      for j := 0 to |configs|
        invariant |attempts| == i * |configs| + j && Filled(attempts, request.rows, configs)
      {
        FillOne(attempts, request.rows, configs, i, j);
        attempts := attempts + [SeedFor(request.rows[i], configs[j])];
      }
      NextRow(i, |configs|);
    }
    return Ok(Plan(configs[0].chain, configs[0].assets, configs, total.value, attempts));
  }

  // attempts[i * m + j] pairs row i with config j.
  lemma PlanPairs(attempts: seq<AttemptSeed>, rows: seq<Row>, configs: seq<ChainConfig>, i: nat, j: nat)
    requires RowMajor(attempts, rows, configs) && i < |rows| && j < |configs|
    ensures i * |configs| + j < |attempts|
    ensures var seed := attempts[i * |configs| + j];
            seed.rowNumber == rows[i].rowNumber && seed.chain == configs[j].chain && seed.assets == configs[j].assets
  {
    PairIndex(i, j, |rows|, |configs|);
  }

  // ---------- Validation ----------

  function Key(address: string): string { Lower(Trim(address, RustSpace)) }

  ghost predicate DistinctChains(configs: seq<ChainConfig>) {
    forall i, j :: 0 <= i < j < |configs| ==> configs[i].chain != configs[j].chain
  }

  ghost predicate DistinctRowNumbers(rows: seq<Row>) {
    forall i, j :: 0 <= i < j < |rows| ==> rows[i].rowNumber != rows[j].rowNumber
  }

  ghost predicate DistinctAddresses(rows: seq<Row>) {
    forall i, j :: 0 <= i < j < |rows| ==> Key(rows[i].address) != Key(rows[j].address)
  }

  ghost predicate RowsAccepted(rows: seq<Row>) {
    && rows != []
    && (forall i :: 0 <= i < |rows| ==> rows[i].rowNumber > 0 && Trim(rows[i].address, RustSpace) != "")
    && DistinctRowNumbers(rows) && DistinctAddresses(rows)
  }

  ghost predicate ConfigsAccepted(configs: seq<ChainConfig>) {
    DistinctChains(configs) && forall i :: 0 <= i < |configs| ==> configs[i].assets != []
  }

  ghost predicate Accepted(request: Request) {
    var configs := EffectiveConfigs(request.defaults);
    RowsAccepted(request.rows) && ConfigsAccepted(configs) && |request.rows| * |configs| <= I32_MAX
  }

  // What is wrong with the request when this error is reported.
  ghost predicate Explains(error: Error, request: Request) {
    var configs := EffectiveConfigs(request.defaults);
    var rows := request.rows;
    match error
    case RowsRequired => rows == []
    case ConfigsRequired => false
    case AssetsRequired => exists i :: 0 <= i < |configs| && configs[i].assets == []
    case ChainNotUnique => !DistinctChains(configs)
    case TooManyAttempts => ConfigsAccepted(configs) && |rows| * |configs| > I32_MAX
    case RowNumberNotPositive => ConfigsAccepted(configs) && exists i :: 0 <= i < |rows| && rows[i].rowNumber <= 0
    case AddressRequired =>
      ConfigsAccepted(configs) && exists i :: 0 <= i < |rows| && Trim(rows[i].address, RustSpace) == ""
    case RowNumberNotUnique => ConfigsAccepted(configs) && !DistinctRowNumbers(rows)
    case AddressNotUnique => ConfigsAccepted(configs) && !DistinctAddresses(rows)
  }

  // Accepts exactly the requests meeting the specification, and names a true reason otherwise.
  method Validate(request: Request) returns (r: Result<(), Error>)
    ensures r.Ok? <==> Accepted(request)
    ensures r.Err? ==> Explains(r.error, request)
  {
    if request.rows == [] {
      return Err(RowsRequired);
    }
    var configs := EffectiveConfigs(request.defaults);
    var chains: set<nat> := {};
    for i := 0 to |configs|
      invariant forall k :: 0 <= k < i ==> configs[k].assets != [] && configs[k].chain in chains
      invariant forall c :: c in chains ==> exists k :: 0 <= k < i && configs[k].chain == c
      invariant DistinctChains(configs[..i])
    {
      if configs[i].assets == [] {
        return Err(AssetsRequired);
      }
      if configs[i].chain in chains {
        return Err(ChainNotUnique);
      }
      chains := chains + {configs[i].chain};
      assert configs[..i + 1] == configs[..i] + [configs[i]];
    }
    assert configs[..|configs|] == configs;
    assert ConfigsAccepted(configs);

    var count := AttemptCount(|request.rows|, |configs|);
    if count.Err? {
      return Err(count.error);
    }
    r := ValidateRows(request.rows);
  }

  ghost function NumbersOf(rows: seq<Row>, n: nat): set<int>
    requires n <= |rows|
  {
    set k | 0 <= k < n :: rows[k].rowNumber
  }

  ghost function KeysOf(rows: seq<Row>, n: nat): set<string>
    requires n <= |rows|
  {
    set k | 0 <= k < n :: Key(rows[k].address)
  }

  method ValidateRows(rows: seq<Row>) returns (r: Result<(), Error>)
    requires rows != []
    ensures r.Ok? <==> RowsAccepted(rows)
    ensures r.Err? ==>
              match r.error
              case RowNumberNotPositive => exists i :: 0 <= i < |rows| && rows[i].rowNumber <= 0
              case AddressRequired => exists i :: 0 <= i < |rows| && Trim(rows[i].address, RustSpace) == ""
              case RowNumberNotUnique => !DistinctRowNumbers(rows)
              case AddressNotUnique => !DistinctAddresses(rows)
              case _ => false
  {
    hide Key, Trim;
    var rowNumbers: set<int> := {};
    var addresses: set<string> := {};
    for i := 0 to |rows|
      invariant forall k :: 0 <= k < i ==> rows[k].rowNumber > 0 && Trim(rows[k].address, RustSpace) != ""
      invariant rowNumbers == NumbersOf(rows, i) && addresses == KeysOf(rows, i)
      invariant forall k, l :: 0 <= k < l < i ==> rows[k].rowNumber != rows[l].rowNumber
      invariant forall k, l :: 0 <= k < l < i ==> Key(rows[k].address) != Key(rows[l].address)
    {
      if rows[i].rowNumber <= 0 {
        return Err(RowNumberNotPositive);
      }
      if Trim(rows[i].address, RustSpace) == "" {
        return Err(AddressRequired);
      }
      if rows[i].rowNumber in rowNumbers {
        return Err(RowNumberNotUnique);
      }
      rowNumbers := rowNumbers + {rows[i].rowNumber};
      if Key(rows[i].address) in addresses {
        return Err(AddressNotUnique);
      }
      addresses := addresses + {Key(rows[i].address)};
    }
    return Ok(());
  }

  lemma SeedAt(attempts: seq<AttemptSeed>, rows: seq<Row>, configs: seq<ChainConfig>, k: nat) returns (i: nat, j: nat)
    requires RowMajor(attempts, rows, configs) && k < |attempts|
    ensures i < |rows| && j < |configs| && k == i * |configs| + j && attempts[k] == SeedFor(rows[i], configs[j])
  {
    i, j := k / |configs|, k % |configs|;
  }

  lemma PairsDiffer(rows: seq<Row>, configs: seq<ChainConfig>, i1: nat, j1: nat, i2: nat, j2: nat)
    requires DistinctRowNumbers(rows) && DistinctChains(configs)
    requires i1 < |rows| && i2 < |rows| && j1 < |configs| && j2 < |configs| && (i1 != i2 || j1 != j2)
    ensures rows[i1].rowNumber != rows[i2].rowNumber || configs[j1].chain != configs[j2].chain
  {
  }

  // For every accepted request the plan's (row_number, chain_id) keys are pairwise distinct.
  lemma PlanKeysDistinct(request: Request, attempts: seq<AttemptSeed>, k1: nat, k2: nat)
    requires Accepted(request) && RowMajor(attempts, request.rows, EffectiveConfigs(request.defaults))
    requires k1 < k2 < |attempts|
    ensures attempts[k1].rowNumber != attempts[k2].rowNumber || attempts[k1].chain != attempts[k2].chain
  {
    hide RowMajor, DistinctRowNumbers, DistinctChains, DistinctAddresses;
    var configs := EffectiveConfigs(request.defaults);
    var i1, j1 := SeedAt(attempts, request.rows, configs, k1);
    var i2, j2 := SeedAt(attempts, request.rows, configs, k2);
    PairsDiffer(request.rows, configs, i1, j1, i2, j2);
  }
}
