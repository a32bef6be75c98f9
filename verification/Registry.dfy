/** The list of monitored services: those from the config file, and those added from Telegram and stored. */
module Registry {
  import opened Models
  import opened Storage
  import opened Titles

  const MAX_TELEGRAM_SERVICES := 100

  datatype ServiceConfig = ServiceConfig(name: string, url: string, healthUrl: Option<string>, enabled: bool)

  datatype Source = FromConfig | FromTelegram

  datatype ManagedService = ManagedService(config: ServiceConfig, source: Source)

  function NameOf(m: ManagedService): string {
    m.config.name
  }

  function CheckUrl(m: ManagedService): string {
    if m.config.healthUrl.Some? then m.config.healthUrl.value else m.config.url
  }

  datatype AddError = NotAUrl | TooMany | UrlTaken(owner: string) | NameTaken(title: string) | NoFreeName

  datatype EditError = NotFound | FromConfigFile

  datatype Result<+T, +E> = Ok(value: T) | Err(error: E)

  // --- insertion-ordered dictionaries --------------------------------------------------------

  function Find(d: seq<ManagedService>, name: string): (r: Option<ManagedService>)
    ensures r.Some? ==> r.value in d && NameOf(r.value) == name
    ensures r.None? ==> forall m :: m in d ==> NameOf(m) != name
  {
    if d == [] then None
    else if NameOf(d[|d|-1]) == name then Some(d[|d|-1])
    else Find(d[..|d|-1], name)
  }

  function Replace(d: seq<ManagedService>, m: ManagedService): seq<ManagedService> {
    if d == [] then []
    else Replace(d[..|d|-1], m) + [if NameOf(d[|d|-1]) == NameOf(m) then m else d[|d|-1]]
  }

  function Put(d: seq<ManagedService>, m: ManagedService): seq<ManagedService> {
    if Find(d, NameOf(m)).None? then d + [m] else Replace(d, m)
  }

  function Drop(d: seq<ManagedService>, name: string): seq<ManagedService> {
    if d == [] then []
    else if NameOf(d[|d|-1]) == name then Drop(d[..|d|-1], name)
    else Drop(d[..|d|-1], name) + [d[|d|-1]]
  }

  function At(d: seq<ManagedService>, url: string): (r: Option<ManagedService>)
    ensures r.Some? ==> r.value in d && CheckUrl(r.value) == url
    ensures r.None? ==> forall m :: m in d ==> CheckUrl(m) != url
  {
    if d == [] then None else if CheckUrl(d[0]) == url then Some(d[0]) else At(d[1..], url)
  }

  function Names(d: seq<ManagedService>): set<string> {
    set m | m in d :: NameOf(m)
  }

  lemma {:induction false} NamesAreFewer(d: seq<ManagedService>)
    ensures |Names(d)| <= |d|
  {
    if d != [] {
      var init, last := d[..|d|-1], d[|d|-1];
      NamesAreFewer(init);
      assert d == init + [last];
      assert Names(d) == Names(init) + {NameOf(last)};
    } else {
      assert Names(d) == {};
    }
  }

  // --- the table as the registry reads it ----------------------------------------------------

  function FromRow(row: ServiceRow): ManagedService {
    ManagedService(ServiceConfig(row.name, row.url, None, row.enabled), FromTelegram)
  }

  predicate Shadowed(config: seq<ManagedService>, name: string) {
    Find(config, name).Some?
  }

  /** The rows that no config service shadows, as services, in order. */
  function Mirror(rows: seq<ServiceRow>, config: seq<ManagedService>): seq<ManagedService> {
    if rows == [] then []
    else if Shadowed(config, rows[|rows|-1].name) then Mirror(rows[..|rows|-1], config)
    else Mirror(rows[..|rows|-1], config) + [FromRow(rows[|rows|-1])]
  }

  lemma MirrorAppend(rows: seq<ServiceRow>, row: ServiceRow, config: seq<ManagedService>)
    ensures Mirror(rows + [row], config) ==
            if Shadowed(config, row.name) then Mirror(rows, config) else Mirror(rows, config) + [FromRow(row)]
  {
    assert (rows + [row])[..|rows|] == rows;
  }

  /** In order: the services of two pieces of the table follow one another. */
  lemma {:induction false} MirrorKeepsOrder(a: seq<ServiceRow>, b: seq<ServiceRow>, config: seq<ManagedService>)
    ensures Mirror(a + b, config) == Mirror(a, config) + Mirror(b, config)
  {
    if b == [] {
      assert a + b == a;
    } else {
      var init, last := b[..|b|-1], b[|b|-1];
      MirrorKeepsOrder(a, init, config);
      assert a + b == (a + init) + [last] && b == init + [last];
      MirrorAppend(a + init, last, config);
      MirrorAppend(init, last, config);
    }
  }

  lemma {:induction false} DropKeepsOrder(a: seq<ManagedService>, b: seq<ManagedService>, name: string)
    ensures Drop(a + b, name) == Drop(a, name) + Drop(b, name)
  {
    if b == [] {
      assert a + b == a;
    } else {
      var init, last := b[..|b|-1], b[|b|-1];
      DropKeepsOrder(a, init, name);
      EditAppend(a + init, last, name, last);
      assert a + b == (a + init) + [last];
    }
  }

  lemma {:induction false} ReplaceInPlace(d: seq<ManagedService>, m: ManagedService)
    ensures |Replace(d, m)| == |d|
    ensures forall i :: 0 <= i < |d| ==> Replace(d, m)[i] == if NameOf(d[i]) == NameOf(m) then m else d[i]
  {
    if d == [] {
    } else {
      ReplaceInPlace(d[..|d|-1], m);
    }
  }

  lemma {:induction false} MirrorMembers(rows: seq<ServiceRow>, config: seq<ManagedService>, m: ManagedService)
    ensures m in Mirror(rows, config) <==>
            exists i :: 0 <= i < |rows| && !Shadowed(config, rows[i].name) && m == FromRow(rows[i])
  {
    if rows == [] {
    } else {
      var init, n := rows[..|rows|-1], |rows| - 1;
      MirrorMembers(init, config, m);
      if i :| 0 <= i < |rows| && !Shadowed(config, rows[i].name) && m == FromRow(rows[i]) {
        if i < n {
          assert init[i] == rows[i];
        }
      }
      if m in Mirror(init, config) {
        var i :| 0 <= i < |init| && !Shadowed(config, init[i].name) && m == FromRow(init[i]);
        assert rows[i] == init[i];
      }
    }
  }

  lemma EditAppend(d: seq<ManagedService>, last: ManagedService, name: string, m: ManagedService)
    ensures Drop(d + [last], name) == if NameOf(last) == name then Drop(d, name) else Drop(d, name) + [last]
    ensures Replace(d + [last], m) == Replace(d, m) + [if NameOf(last) == NameOf(m) then m else last]
  {
    assert (d + [last])[..|d|] == d;
  }

  lemma {:induction false} MirrorWithout(rows: seq<ServiceRow>, config: seq<ManagedService>, name: string)
    ensures Mirror(Without(rows, name), config) == Drop(Mirror(rows, config), name)
  {
    if rows == [] {
    } else {
      var init, last := rows[..|rows|-1], rows[|rows|-1];
      MirrorWithout(init, config, name);
      if last.name != name {
        MirrorAppend(Without(init, name), last, config);
      }
      EditAppend(Mirror(init, config), FromRow(last), name, FromRow(last));
    }
  }

  lemma {:induction false} MirrorWithEnabled(rows: seq<ServiceRow>, config: seq<ManagedService>, m: ManagedService,
                                             enabled: bool)
    requires !Shadowed(config, NameOf(m)) && m.source == FromTelegram && m.config.healthUrl == None
    requires forall i :: 0 <= i < |rows| && rows[i].name == NameOf(m) ==> FromRow(rows[i]) == m
    ensures Mirror(WithEnabled(rows, NameOf(m), enabled), config) ==
            Replace(Mirror(rows, config), m.(config := m.config.(enabled := enabled)))
  {
    if rows == [] {
    } else {
      var init, last := rows[..|rows|-1], rows[|rows|-1];
      assert forall i :: 0 <= i < |init| ==> init[i] == rows[i];
      MirrorWithEnabled(init, config, m, enabled);
      var flipped := if last.name == NameOf(m) then last.(enabled := enabled) else last;
      MirrorAppend(WithEnabled(init, NameOf(m), enabled), flipped, config);
      EditAppend(Mirror(init, config), FromRow(last), last.name, m.(config := m.config.(enabled := enabled)));
    }
  }

  predicate SameRows(a: seq<ServiceRow>, b: seq<ServiceRow>) {
    (forall row :: row in a ==> row in b) && (forall row :: row in b ==> row in a)
  }

  lemma SameRowsWithout(a: seq<ServiceRow>, b: seq<ServiceRow>, name: string)
    requires SameRows(a, b) && UniqueNames(a) && UniqueNames(b)
    ensures SameRows(Without(a, name), Without(b, name))
    ensures UniqueNames(Without(a, name)) && UniqueNames(Without(b, name))
  {
    WithoutMembers(a, name);
    WithoutMembers(b, name);
  }

  lemma SameRowsWithEnabled(a: seq<ServiceRow>, b: seq<ServiceRow>, name: string, enabled: bool)
    requires SameRows(a, b) && UniqueNames(a) && UniqueNames(b)
    ensures SameRows(WithEnabled(a, name, enabled), WithEnabled(b, name, enabled))
    ensures UniqueNames(WithEnabled(a, name, enabled)) && UniqueNames(WithEnabled(b, name, enabled))
  {
    WithEnabledAt(a, name, enabled);
    WithEnabledAt(b, name, enabled);
    EachWithEnabled(a, b, name, enabled);
    EachWithEnabled(b, a, name, enabled);
  }

  lemma EachWithEnabled(a: seq<ServiceRow>, b: seq<ServiceRow>, name: string, enabled: bool)
    requires forall row :: row in a ==> row in b
    ensures forall row :: row in WithEnabled(a, name, enabled) ==> row in WithEnabled(b, name, enabled)
  {
    WithEnabledAt(a, name, enabled);
    WithEnabledAt(b, name, enabled);
    forall row | row in WithEnabled(a, name, enabled) ensures row in WithEnabled(b, name, enabled) {
      var i :| 0 <= i < |a| && WithEnabled(a, name, enabled)[i] == row;
      assert a[i] in b;
      var j :| 0 <= j < |b| && b[j] == a[i];
      assert WithEnabled(b, name, enabled)[j] == row;
    }
  }

  /** An unregistered name is free in the table: the INSERT of a new service never hits an existing key. */
  lemma UnregisteredIsNotStored(rows: seq<ServiceRow>, order: seq<ServiceRow>,
                                config: seq<ManagedService>, name: string)
    requires SameRows(order, rows) && Find(config, name).None? && Find(Mirror(order, config), name).None?
    ensures !HasName(rows, name) && !HasName(order, name)
  {
    forall row | row in order ensures row.name != name {
      MirrorMembers(order, config, FromRow(row));
      var i :| 0 <= i < |order| && order[i] == row;
      assert Shadowed(config, order[i].name) || FromRow(order[i]) in Mirror(order, config);
    }
    forall i | 0 <= i < |rows| ensures rows[i].name != name {
      assert rows[i] in order;
    }
  }

  // --- unique names --------------------------------------------------------------------------

  predicate Taken(config: seq<ManagedService>, telegram: seq<ManagedService>, name: string) {
    Find(config, name).Some? || Find(telegram, name).Some?
  }

  predicate AllTaken(config: seq<ManagedService>, telegram: seq<ManagedService>, base: string) {
    forall k :: 2 <= k < MAX_TELEGRAM_SERVICES + 2 ==> Taken(config, telegram, Candidate(base, k))
  }

  /** `name` is the numbered variant of `base` with the least number that is free. */
  predicate LeastFree(config: seq<ManagedService>, telegram: seq<ManagedService>, base: string, name: string) {
    exists k :: 2 <= k < MAX_TELEGRAM_SERVICES + 2 && name == Candidate(base, k) &&
                !Taken(config, telegram, name) &&
                (forall j :: 2 <= j < k ==> Taken(config, telegram, Candidate(base, j)))
  }

  lemma TakenIsNamed(config: seq<ManagedService>, telegram: seq<ManagedService>, name: string)
    ensures Taken(config, telegram, name) <==> name in Names(config) + Names(telegram)
  {
    if name in Names(config) {
      var m :| m in config && NameOf(m) == name;
    }
    if name in Names(telegram) {
      var m :| m in telegram && NameOf(m) == name;
    }
  }

  /** The numbered names run out exactly when all of them, a hundred different ones, are registered. */
  lemma NamesRunOutOnlyWhenAllAreTaken(config: seq<ManagedService>, telegram: seq<ManagedService>,
                                       base: string)
    ensures AllTaken(config, telegram, base) <==>
            |Candidates(base, MAX_TELEGRAM_SERVICES + 2) * (Names(config) + Names(telegram))| >= MAX_TELEGRAM_SERVICES
  {
    var all, names := Candidates(base, MAX_TELEGRAM_SERVICES + 2), Names(config) + Names(telegram);
    CandidatesAreMany(base, MAX_TELEGRAM_SERVICES + 2);
    if AllTaken(config, telegram, base) {
      forall c | c in all ensures c in names {
        TakenIsNamed(config, telegram, c);
      }
      assert all * names == all;
    } else {
      var k :| 2 <= k < MAX_TELEGRAM_SERVICES + 2 && !Taken(config, telegram, Candidate(base, k));
      TakenIsNamed(config, telegram, Candidate(base, k));
      assert Candidate(base, k) in all;
      SubsetIsSmaller(all * names, all - {Candidate(base, k)});
    }
  }

  /** Below the size limit, if no config name has the numbered form, a free one is always found. */
  lemma AddNeverRunsOutOfNames(config: seq<ManagedService>, telegram: seq<ManagedService>,
                               base: string)
    requires |telegram| < MAX_TELEGRAM_SERVICES
    requires forall k: nat :: Find(config, Candidate(base, k)).None?
    ensures !AllTaken(config, telegram, base)
  {
    if AllTaken(config, telegram, base) {
      NamesRunOutOnlyWhenAllAreTaken(config, telegram, base);
      var all := Candidates(base, MAX_TELEGRAM_SERVICES + 2);
      forall c | c in all * (Names(config) + Names(telegram)) ensures c in Names(telegram) {
        var k :| 2 <= k < MAX_TELEGRAM_SERVICES + 2 && c == Candidate(base, k);
        assert Find(config, Candidate(base, k)).None?;
      }
      SubsetIsSmaller(all * (Names(config) + Names(telegram)), Names(telegram));
      NamesAreFewer(telegram);
    }
  }

  // --- the registry --------------------------------------------------------------------------

  /** The title `add` asks for: the given name, or the host, cut to size. */
  function TitleFor(name: Option<string>, host: string): string {
    var given := if name.Some? then Strip(name.value) else "";
    Clipped(if given != "" then given else host)
  }

  predicate Named(name: Option<string>) {
    name.Some? && name.value != ""
  }

  /** Why no service can be added for this URL, whatever its name. */
  function UrlProblem(config: seq<ManagedService>, telegram: seq<ManagedService>,
                      url: Option<string>): Option<AddError> {
    if url.None? then Some(NotAUrl)
    else if |telegram| >= MAX_TELEGRAM_SERVICES then Some(TooMany)
    else var existing := At(config + telegram, url.value);
      if existing.Some? then Some(UrlTaken(NameOf(existing.value))) else None
  }

  lemma UrlProblemIs(config: seq<ManagedService>, telegram: seq<ManagedService>, url: Option<string>)
    ensures var p := UrlProblem(config, telegram, url);
            && (p == None ==>
                  url.Some? && |telegram| < 100 && forall m :: m in config + telegram ==> CheckUrl(m) != url.value)
            && (p == Some(NotAUrl) <==> url.None?)
            && (p == Some(TooMany) <==> url.Some? && |telegram| >= 100)
            && (p.Some? && p.value.UrlTaken? ==> FirstAt(config + telegram, url.value, p.value.owner))
  {
    if url.Some? {
      AtIsFirst(config + telegram, url.value);
    }
  }

  /** The title is the one asked for if that is free; a taken one is an error if it was given, else it is numbered. */
  predicate TitleOutcome(config: seq<ManagedService>, telegram: seq<ManagedService>, asked: string, given: bool,
                         r: Result<string, AddError>)
  {
    var taken := Taken(config, telegram, asked);
    match r
    case Ok(title) =>
      !Taken(config, telegram, title) &&
      (if taken then !given && LeastFree(config, telegram, asked, title) else title == asked)
    case Err(NameTaken(title)) => taken && given && title == asked
    case Err(NoFreeName) => taken && !given && AllTaken(config, telegram, asked)
    case Err(_) => false
  }

  /** `n` is the name of the first service of the list that is checked at this URL. */
  ghost predicate FirstAt(d: seq<ManagedService>, url: string, n: string) {
    exists i :: 0 <= i < |d| && CheckUrl(d[i]) == url && NameOf(d[i]) == n &&
                forall j :: 0 <= j < i ==> CheckUrl(d[j]) != url
  }

  lemma {:induction false} AtIsFirst(d: seq<ManagedService>, url: string)
    ensures At(d, url).Some? ==> FirstAt(d, url, NameOf(At(d, url).value))
  {
    if d == [] {
    } else if CheckUrl(d[0]) == url {
      assert FirstAt(d, url, NameOf(d[0]));
    } else {
      AtIsFirst(d[1..], url);
      if At(d, url).Some? {
        var n := NameOf(At(d, url).value);
        var i :| 0 <= i < |d[1..]| && CheckUrl(d[1..][i]) == url && NameOf(d[1..][i]) == n &&
                 forall j :: 0 <= j < i ==> CheckUrl(d[1..][j]) != url;
        assert d[i + 1] == d[1..][i];
        forall j | 0 <= j < i + 1 ensures CheckUrl(d[j]) != url {
          assert j > 0 ==> d[j] == d[1..][j - 1];
        }
      }
    }
  }

  /** The title asked for is the given name, stripped, or the host if nothing is left of it; cut to size. */
  lemma TitleIsTheNameOrTheHost(name: Option<string>, host: string)
    ensures name == None ==> IsCut(host, TitleFor(name, host))
    ensures name.Some? && AllSpaces(name.value) ==> IsCut(host, TitleFor(name, host))
    ensures name.Some? && !AllSpaces(name.value) ==>
              exists s :: s != [] && IsStripped(name.value, s) && IsCut(s, TitleFor(name, host))
  {
    ClippedCuts(host);
    if name.Some? {
      StripStrips(name.value);
      StripOfSpaces(name.value);
      ClippedCuts(Strip(name.value));
    }
  }

  class ServiceRegistry {
    const store: StateStore
    const config: seq<ManagedService>
    var telegram: seq<ManagedService>
    /** The rows behind `telegram`, in its order. */
    ghost var order: seq<ServiceRow>

    ghost predicate ConfigOk() {
      && (forall i, j :: 0 <= i < j < |config| ==> NameOf(config[i]) != NameOf(config[j]))
      && (forall m :: m in config ==> m.source == FromConfig)
    }

    /** In memory stands what the table holds, minus what the config shadows. */
    ghost predicate Valid()
      reads this, store
    {
      && ConfigOk()
      && UniqueNames(store.managed) && UniqueNames(order) && SameRows(order, store.managed)
      && telegram == Mirror(order, config)
    }

    constructor (store: StateStore, services: seq<ServiceConfig>)
      requires forall i, j :: 0 <= i < j < |services| ==> services[i].name != services[j].name
      ensures ConfigOk() && this.store == store && telegram == []
      ensures config == seq(|services|, i requires 0 <= i < |services| => ManagedService(services[i], FromConfig))
    {
      this.store := store;
      config := seq(|services|, i requires 0 <= i < |services| => ManagedService(services[i], FromConfig));
      telegram, order := [], [];
    }

    function Get(name: string): Option<ManagedService>
      reads this
    {
      if Find(config, name).Some? then Find(config, name) else Find(telegram, name)
    }

    function All(): seq<ManagedService>
      reads this
    {
      config + telegram
    }

    method Load()
      requires ConfigOk() && UniqueNames(store.managed)
      modifies this`telegram, this`order
      ensures Valid() && order == Sorted(store.managed)
    {
      var records := store.ListServices();
      SortedNames(store.managed);
      telegram := FromRecords(records);
      order := records;
      forall row ensures row in order <==> row in store.managed {
        SortedKeepsMembers(store.managed, row);
      }
    }

    /** One dictionary entry per record that no config service shadows. */
    method FromRecords(records: seq<ServiceRow>) returns (loaded: seq<ManagedService>)
      requires UniqueNames(records)
      ensures loaded == Mirror(records, config)
    {
      loaded := [];
      for i := 0 to |records|
        invariant loaded == Mirror(records[..i], config)
      {
        var record := records[i];
        assert records[..i+1] == records[..i] + [record];
        MirrorAppend(records[..i], record, config);
        if Find(config, record.name).Some? {
          continue;
        }
        MirrorHasNot(records, i, config);
        loaded := Put(loaded, FromRow(record));
      }
      assert records[..|records|] == records;
    }

    method UniqueName(base: string) returns (r: Option<string>)
      ensures r.None? <==> AllTaken(config, telegram, base)
      ensures r.Some? ==> LeastFree(config, telegram, base, r.value)
    {
      for suffix := 2 to MAX_TELEGRAM_SERVICES + 2
        invariant forall j :: 2 <= j < suffix ==> Taken(config, telegram, Candidate(base, j))
      {
        var candidate := Candidate(base, suffix);
        if Get(candidate) == None {
          return Some(candidate);
        }
      }
      return None;
    }

    /** `url` is the normalized URL, `None` if the text was no URL; `host` is its default name. */
    method Add(url: Option<string>, host: string, name: Option<string>, now: Time)
      returns (r: Result<ManagedService, AddError>)
      requires Valid()
      modifies this`telegram, this`order, store`managed
      ensures Valid()
      ensures r.Err? ==> store.managed == old(store.managed) && telegram == old(telegram) && order == old(order)
      ensures r == Err(NotAUrl) <==> url.None?
      ensures r == Err(TooMany) <==> url.Some? && |old(telegram)| >= 100
      ensures r.Err? && r.error.UrlTaken? <==>
                && url.Some? && |old(telegram)| < 100
                && exists m :: m in config + old(telegram) && CheckUrl(m) == url.value
      ensures r.Err? && r.error.UrlTaken? ==> FirstAt(config + old(telegram), url.value, r.error.owner)
      ensures r.Ok? ==> url.Some? && |old(telegram)| < 100
      ensures r.Ok? ==>
                forall m :: m in config + old(telegram) ==>
                  m.config.healthUrl != url && (m.config.healthUrl == None ==> m.config.url != url.value)
      ensures name.Some? && name.value != "" && (r.Ok? || r.error.NameTaken? || r.error.NoFreeName?) ==>
                var title := TitleFor(name, host);
                if Taken(config, old(telegram), title) then r == Err(NameTaken(title))
                else r.Ok? && NameOf(r.value) == title
      ensures name == None || name == Some("") ==>
                && !(r.Err? && r.error.NameTaken?)
                && (r.Ok? && !Taken(config, old(telegram), TitleFor(name, host)) ==>
                      NameOf(r.value) == TitleFor(name, host))
      ensures r.Ok? || r.error.NameTaken? || r.error.NoFreeName? ==>
                TitleOutcome(config, old(telegram), TitleFor(name, host), Named(name),
                             if r.Ok? then Ok(NameOf(r.value)) else Err(r.error))
      ensures r.Ok? ==>
                var row := ServiceRow(NameOf(r.value), url.value, true, now);
                && r.value == FromRow(row) && !Taken(config, old(telegram), row.name)
                && store.managed == old(store.managed) + [row] && order == old(order) + [row]
                && telegram == old(telegram) + [r.value]
    {
      var problem := UrlProblem(config, telegram, url);
      UrlProblemIs(config, telegram, url);
      if problem.Some? {
        return Err(problem.value);
      }
      var title := ChooseTitle(host, name);
      if title.Err? {
        return Err(title.error);
      }
      r := Insert(title.value, url.value, now);
    }

    method ChooseTitle(host: string, name: Option<string>) returns (r: Result<string, AddError>)
      ensures TitleOutcome(config, telegram, TitleFor(name, host), Named(name), r)
    {
      var title := TitleFor(name, host);
      if Get(title) == None {
        return Ok(title);
      }
      if Named(name) {
        return Err(NameTaken(title));
      }
      var unique := UniqueName(title);
      if unique == None {
        return Err(NoFreeName);
      }
      return Ok(unique.value);
    }

    /** The INSERT and the dictionary entry; the key is always free. */
    method Insert(title: string, url: string, now: Time) returns (r: Result<ManagedService, AddError>)
      requires Valid() && !Taken(config, telegram, title)
      modifies this`telegram, this`order, store`managed
      ensures Valid() && r == Ok(FromRow(ServiceRow(title, url, true, now)))
      ensures store.managed == old(store.managed) + [ServiceRow(title, url, true, now)]
      ensures order == old(order) + [ServiceRow(title, url, true, now)]
      ensures telegram == old(telegram) + [r.value]
    {
      ghost var row := ServiceRow(title, url, true, now);
      UnregisteredIsNotStored(store.managed, order, config, title);
      AppendMembers(store.managed, row);
      AppendMembers(order, row);
      MirrorAppend(order, row, config);
      var inserted := store.AddService(title, url, now);
      assert inserted;
      var service := ManagedService(ServiceConfig(title, url, None, true), FromTelegram);
      telegram := Put(telegram, service);
      order := order + [row];
      return Ok(service);
    }

    method RequireEditable(name: string) returns (r: Result<ManagedService, EditError>)
      requires Valid()
      ensures r == Err(FromConfigFile) <==> Find(config, name).Some?
      ensures r == Err(NotFound) <==> Find(config, name).None? && Find(telegram, name).None?
      ensures r.Ok? <==> Find(config, name).None? && Find(telegram, name).Some?
      ensures r.Ok? ==> Find(telegram, name) == Some(r.value)
    {
      var service := Get(name);
      if service.None? {
        return Err(NotFound);
      }
      MirrorIsTelegram(order, config);
      if service.value.source != FromTelegram {
        return Err(FromConfigFile);
      }
      return Ok(service.value);
    }

    method Remove(name: string) returns (r: Result<ManagedService, EditError>)
      requires Valid()
      modifies this`telegram, this`order, store`managed, store`rows
      ensures Valid()
      ensures r.Ok? <==> old(Find(config, name).None? && Find(telegram, name).Some?)
      ensures r.Err? ==>
                store.managed == old(store.managed) && store.rows == old(store.rows) && telegram == old(telegram)
      ensures r.Ok? ==>
                && store.managed == Without(old(store.managed), name) && store.rows == old(store.rows) - {name}
                && telegram == Drop(old(telegram), name) && Get(name) == None
      ensures order == if r.Ok? then Without(old(order), name) else old(order)
    {
      r := RequireEditable(name);
      if r.Ok? {
        SameRowsWithout(order, store.managed, name);
        MirrorWithout(order, config, name);
        store.DeleteService(name);
        telegram := Drop(telegram, name);
        order := Without(order, name);
        DropRemoves(old(telegram), name);
      }
    }

    method SetEnabled(name: string, enabled: bool) returns (r: Result<ManagedService, EditError>)
      requires Valid()
      modifies this`telegram, this`order, store`managed
      ensures Valid()
      ensures r.Ok? <==> old(Find(config, name).None? && Find(telegram, name).Some?)
      ensures r.Err? ==> store.managed == old(store.managed) && telegram == old(telegram) && order == old(order)
      ensures r.Ok? ==>
                && (var was := old(Find(telegram, name).value);
                    r.value == was.(config := was.config.(enabled := enabled)))
                && store.managed == WithEnabled(old(store.managed), name, enabled)
                && order == WithEnabled(old(order), name, enabled)
                && telegram == Replace(old(telegram), r.value)
    {
      r := RequireEditable(name);
      if r.Err? {
        return;
      }
      var service := r.value;
      OwnRow(order, config, name);
      if service.config.enabled == enabled {
        forall row | row in order && row.name == name ensures row.enabled == enabled {
          var i :| 0 <= i < |order| && order[i] == row;
          assert FromRow(order[i]) == service;
        }
        AlreadyEnabled(order, name, enabled);
        AlreadyEnabled(store.managed, name, enabled);
        MirrorWithEnabled(order, config, service, enabled);
        return;
      }
      SameRowsWithEnabled(order, store.managed, name, enabled);
      MirrorWithEnabled(order, config, service, enabled);
      store.SetServiceEnabled(name, enabled);
      var updated := service.(config := service.config.(enabled := enabled));
      telegram := Put(telegram, updated);
      order := WithEnabled(order, name, enabled);
      return Ok(updated);
    }
  }

  lemma MirrorHasNot(rows: seq<ServiceRow>, i: nat, config: seq<ManagedService>)
    requires UniqueNames(rows) && i < |rows|
    ensures Find(Mirror(rows[..i], config), rows[i].name).None?
  {
    forall m | m in Mirror(rows[..i], config) ensures NameOf(m) != rows[i].name {
      MirrorMembers(rows[..i], config, m);
      var j :| 0 <= j < i && m == FromRow(rows[..i][j]);
      assert rows[j].name != rows[i].name;
    }
  }

  predicate DistinctNames(d: seq<ManagedService>) {
    forall i, j :: 0 <= i < j < |d| ==> NameOf(d[i]) != NameOf(d[j])
  }

  lemma {:induction false} MirrorNamesDistinct(rows: seq<ServiceRow>, config: seq<ManagedService>)
    requires UniqueNames(rows)
    ensures DistinctNames(Mirror(rows, config))
  {
    if rows == [] {
    } else {
      var init, last := rows[..|rows|-1], rows[|rows|-1];
      MirrorNamesDistinct(init, config);
      forall m | m in Mirror(init, config) ensures NameOf(m) != last.name {
        MirrorMembers(init, config, m);
      }
    }
  }

  /** A name is either of a config service or of a stored one, and of one service only. */
  lemma AllNamesDistinct(config: seq<ManagedService>, rows: seq<ServiceRow>)
    requires UniqueNames(rows) && DistinctNames(config)
    ensures DistinctNames(config + Mirror(rows, config))
  {
    MirrorNamesDistinct(rows, config);
    forall m | m in Mirror(rows, config) ensures Find(config, NameOf(m)).None? {
      MirrorMembers(rows, config, m);
    }
  }

  lemma Unregistered(config: seq<ManagedService>, telegram: seq<ManagedService>, name: string)
    requires Find(config, name).None? && Find(telegram, name).None?
    ensures forall i :: 0 <= i < |config + telegram| ==> NameOf((config + telegram)[i]) != name
  {
  }

  lemma MirrorIsTelegram(rows: seq<ServiceRow>, config: seq<ManagedService>)
    ensures forall m :: m in Mirror(rows, config) ==> m.source == FromTelegram
  {
    forall m | m in Mirror(rows, config) ensures m.source == FromTelegram {
      MirrorMembers(rows, config, m);
    }
  }

  lemma {:induction false} DropRemoves(d: seq<ManagedService>, name: string)
    ensures Find(Drop(d, name), name).None?
  {
    if d == [] {
    } else {
      DropRemoves(d[..|d|-1], name);
      if NameOf(d[|d|-1]) != name {
        assert Drop(d, name)[..|Drop(d, name)|-1] == Drop(d[..|d|-1], name);
      }
    }
  }

  /** The one row of a Telegram service is the one its dictionary entry was made from. */
  lemma OwnRow(rows: seq<ServiceRow>, config: seq<ManagedService>, name: string)
    requires UniqueNames(rows) && Find(config, name).None? && Find(Mirror(rows, config), name).Some?
    ensures forall i :: 0 <= i < |rows| && rows[i].name == name ==>
              FromRow(rows[i]) == Find(Mirror(rows, config), name).value
    ensures Find(Mirror(rows, config), name).value.source == FromTelegram
    ensures Find(Mirror(rows, config), name).value.config.healthUrl == None
  {
    var m := Find(Mirror(rows, config), name).value;
    MirrorMembers(rows, config, m);
    var j :| 0 <= j < |rows| && m == FromRow(rows[j]);
    forall i | 0 <= i < |rows| && rows[i].name == name ensures FromRow(rows[i]) == m {
      assert i < j ==> rows[i].name != rows[j].name;
      assert j < i ==> rows[j].name != rows[i].name;
    }
  }

  lemma AlreadyEnabled(rows: seq<ServiceRow>, name: string, enabled: bool)
    requires forall row :: row in rows && row.name == name ==> row.enabled == enabled
    ensures WithEnabled(rows, name, enabled) == rows
  {
    WithEnabledAt(rows, name, enabled);
    forall i | 0 <= i < |rows| ensures WithEnabled(rows, name, enabled)[i] == rows[i] {
      assert rows[i] in rows;
    }
  }

  // --- loading again -------------------------------------------------------------------------

  /** Loading again finds the same services; and in the same order if they were created one after another. */
  lemma LoadingAgainChangesNothing(rows: seq<ServiceRow>, order: seq<ServiceRow>,
                                   config: seq<ManagedService>)
    requires SameRows(order, rows)
    ensures forall m :: m in Mirror(Sorted(rows), config) <==> m in Mirror(order, config)
    ensures order == rows && CreatedInOrder(rows) ==> Mirror(Sorted(rows), config) == Mirror(order, config)
  {
    forall m ensures m in Mirror(Sorted(rows), config) <==> m in Mirror(order, config) {
      MirrorMembers(Sorted(rows), config, m);
      MirrorMembers(order, config, m);
      forall row ensures row in Sorted(rows) <==> row in order {
        SortedKeepsMembers(rows, row);
      }
      if i :| 0 <= i < |order| && !Shadowed(config, order[i].name) && m == FromRow(order[i]) {
        assert order[i] in Sorted(rows);
      }
      if i :| 0 <= i < |Sorted(rows)| && !Shadowed(config, Sorted(rows)[i].name) && m == FromRow(Sorted(rows)[i]) {
        assert Sorted(rows)[i] in order;
      }
    }
    if CreatedInOrder(rows) {
      SortedLeavesOrderAlone(rows);
    }
  }

  /** A row created later than all others keeps the table in creation order; removal and pausing keep it too. */
  lemma EditsKeepCreationOrder(rows: seq<ServiceRow>, row: ServiceRow, name: string, enabled: bool)
    requires CreatedInOrder(rows)
    ensures (forall i :: 0 <= i < |rows| ==> rows[i].createdAt < row.createdAt) ==> CreatedInOrder(rows + [row])
    ensures CreatedInOrder(Without(rows, name)) && CreatedInOrder(WithEnabled(rows, name, enabled))
  {
    WithEnabledAt(rows, name, enabled);
    WithoutKeepsCreationOrder(rows, name);
  }

  lemma {:induction false} WithoutKeepsCreationOrder(rows: seq<ServiceRow>, name: string)
    requires CreatedInOrder(rows)
    ensures CreatedInOrder(Without(rows, name))
    ensures forall row :: row in Without(rows, name) ==> row in rows
  {
    if rows == [] {
    } else {
      var init, last := rows[..|rows|-1], rows[|rows|-1];
      WithoutKeepsCreationOrder(init, name);
      forall row | row in Without(init, name) ensures row in rows && row.createdAt < last.createdAt {
        var i :| 0 <= i < |init| && init[i] == row;
        assert rows[i] == row;
      }
      var kept := Without(init, name);
      assert forall i :: 0 <= i < |kept| ==> kept[i] in kept;
    }
  }
}
