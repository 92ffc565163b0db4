/** Re-vendoring named schemas: bytes, pins and manifest move together or not at all. */
module SchemaRevendor {
  import opened Text
  import Registry = PinRegistry
  import PinRewrite
  import TextWrap

  type Bytes = string

  datatype File = Schema(name: string) | PinRegistryFile | ManifestFile

  datatype Content =
    | Raw(bytes: Bytes)
    | Code(src: Registry.Source)
    | Records(entries: map<string, Entry>)

  /** One manifest row: where a vendored schema came from. */
  datatype Entry = Entry(commit: string, blob: string, mirror: string)

  type Files = map<File, Content>

  /** The upstream clone at one commit, and the hashes and readers applied to schema bytes. */
  datatype Upstream = Upstream(
    sha: string,
    tree: map<string, Bytes>,
    blob: Bytes -> string,
    mirror: (string, Bytes) -> string,
    version: Bytes -> Option<string>,
    major: string -> Option<nat>,
    bump: Bytes -> Option<string>,
    shape: Bytes -> Option<string>,
    declines: map<string, Decline>)

  /** A live record that this shape at this version was deliberately not imported, or one that cannot be
      read. */
  datatype Decline = Decline(version: Option<string>, shape: string) | Garbled

  /** What the operator asks for; `split` is how the wrapping library splits a text into chunks. */
  datatype Request = Request(
    names: seq<string>, ref: string, today: string, reason: string, split: string -> seq<string>,
    ackMajor: bool, ackDeclined: bool, dryRun: bool)

  // ---------------------------------------------------------------- planning

  datatype Plan = Plan(
    name: string, incoming: Bytes, needsWrite: bool, needsRepin: bool, major: bool, declined: bool)
  {
    predicate Actionable() { needsWrite || needsRepin }
  }

  /** The incoming version's major exceeds the vendored one, or the version changed and upstream
      classed that change as major. Missing metadata never makes a major. */
  predicate MajorBump(up: Upstream, current: Bytes, incoming: Bytes) {
    match (up.version(current), up.version(incoming))
    case (Some(have), Some(want)) =>
      (up.major(have).Some? && up.major(want).Some? && up.major(want).value > up.major(have).value)
      || (have != want && up.bump(incoming) == Some("major"))
    case _ => false
  }

  predicate Declined(up: Upstream, name: string, incoming: Bytes) {
    name in up.declines && up.declines[name].Decline? && up.version(incoming) == up.declines[name].version
    && up.shape(incoming) == Some(up.declines[name].shape)
  }

  predicate Vendored(files: Files, name: string) {
    Schema(name) in files && files[Schema(name)].Raw?
  }

  /** Everything the run needs to know before it can plan: a readable registry and manifest, vendored and
      upstream copies of every name and no unreadable decline of it, and HEAD for names without a pin. */
  predicate Plannable(files: Files, up: Upstream, req: Request) {
    && Pins(files).Some? && Manifest(files).Some?
    && req.names != []
    && (forall i :: 0 <= i < |req.names| ==> Vendored(files, req.names[i]) && req.names[i] in up.tree)
    && (forall i :: 0 <= i < |req.names| ==> req.names[i] in up.declines ==> up.declines[req.names[i]].Decline?)
    && (req.ref == "HEAD" || forall i :: 0 <= i < |req.names| ==> req.names[i] in Pins(files).value)
  }

  function Pins(files: Files): Option<Registry.Pins> {
    if PinRegistryFile in files && files[PinRegistryFile].Code?
    then Registry.Load(files[PinRegistryFile].src) else None
  }

  /** An absent manifest reads as empty; an unreadable one is an error. */
  function Manifest(files: Files): Option<map<string, Entry>> {
    if ManifestFile !in files then Some(map[])
    else if files[ManifestFile].Records? then Some(files[ManifestFile].entries)
    else None
  }

  function PlanFor(files: Files, up: Upstream, name: string): Plan
    requires Pins(files).Some? && Vendored(files, name) && name in up.tree
  {
    var current, incoming := files[Schema(name)].bytes, up.tree[name];
    var pins := Pins(files).value;
    Plan(name, incoming, current != incoming, name in pins && pins[name] != up.sha,
         MajorBump(up, current, incoming), Declined(up, name, incoming))
  }

  function Plans(files: Files, up: Upstream, req: Request): (r: seq<Plan>)
    requires Plannable(files, up, req)
    ensures |r| == |req.names|
    ensures forall i :: 0 <= i < |r| ==> r[i] == PlanFor(files, up, req.names[i])
  {
    seq(|req.names|, i requires 0 <= i < |req.names| => PlanFor(files, up, req.names[i]))
  }

  function Key(name: string): string { name + ".schema.json" }

  /** What the manifest should say about one schema, given what it says now. */
  function EntryFor(up: Upstream, name: string, have: map<string, Entry>): Entry
    requires name in up.tree
  {
    var bytes := up.tree[name];
    var blob, mirror := up.blob(bytes), up.mirror(name, bytes);
    if Key(name) in have && have[Key(name)].blob == blob
    then have[Key(name)].(mirror := mirror)
    else Entry(up.sha, blob, mirror)
  }

  /** The rows that differ from what the manifest holds. */
  function Updates(up: Upstream, names: seq<string>, have: map<string, Entry>): map<string, Entry>
    requires forall i :: 0 <= i < |names| ==> names[i] in up.tree
  {
    if names == [] then map[]
    else
      var rest := Updates(up, names[..|names| - 1], have);
      var name := names[|names| - 1];
      var want := EntryFor(up, name, have);
      if Key(name) in have && have[Key(name)] == want then rest else rest[Key(name) := want]
  }

  lemma {:induction false} UpdatesSettle(up: Upstream, names: seq<string>, have: map<string, Entry>)
    requires forall i :: 0 <= i < |names| ==> names[i] in up.tree
    ensures forall i :: 0 <= i < |names| ==>
              var now := have + Updates(up, names, have);
              Key(names[i]) in now && now[Key(names[i])] == EntryFor(up, names[i], have)
    ensures forall k :: k in Updates(up, names, have) ==> exists i :: 0 <= i < |names| && k == Key(names[i])
  {
    if names != [] {
      var n := |names| - 1;
      UpdatesSettle(up, names[..n], have);
      forall i | 0 <= i < |names|
        ensures var now := have + Updates(up, names, have);
                Key(names[i]) in now && now[Key(names[i])] == EntryFor(up, names[i], have)
      {
        if i < n {
          assert names[..n][i] == names[i];
          KeyInjective(names[i], names[n]);
        } else if Key(names[n]) in Updates(up, names[..n], have) {
          var j :| 0 <= j < |names[..n]| && Key(names[n]) == Key(names[..n][j]);
          KeyInjective(names[n], names[..n][j]);
        }
      }
      forall k | k in Updates(up, names[..n], have)
        ensures exists i :: 0 <= i < |names| && k == Key(names[i])
      {
        var i :| 0 <= i < |names[..n]| && k == Key(names[..n][i]);
        assert k == Key(names[i]);
      }
      assert Key(names[n]) == Key(names[n]);
    }
  }

  lemma {:induction false} KeyInjective(a: string, b: string)
    ensures Key(a) == Key(b) ==> a == b
  {
    if Key(a) == Key(b) {
      assert a == Key(a)[..|Key(a)| - 12] == Key(b)[..|Key(b)| - 12] == b;
    }
  }

  // ---------------------------------------------------------------- what a run would do

  predicate Actionable(plans: seq<Plan>) {
    exists i :: 0 <= i < |plans| && plans[i].Actionable()
  }

  /** Gates: a live decline, a major bump and a pin move each need their own consent. */
  predicate Blocked(plans: seq<Plan>, req: Request) {
    || (!req.ackDeclined && exists i :: 0 <= i < |plans| && plans[i].Actionable() && plans[i].declined)
    || (!req.ackMajor && exists i :: 0 <= i < |plans| && plans[i].Actionable() && plans[i].major)
    || (Strip(req.reason) == "" && exists i :: 0 <= i < |plans| && plans[i].needsRepin)
  }

  predicate Changes(files: Files, up: Upstream, n: string)
    requires Pins(files).Some? && Vendored(files, n) && n in up.tree
  {
    files[Schema(n)].bytes != up.tree[n] || PinMoves(files, up, n)
  }

  predicate PinMoves(files: Files, up: Upstream, n: string)
    requires Pins(files).Some?
  {
    n in Pins(files).value && Pins(files).value[n] != up.sha
  }

  /** The consent a schema's change needs: a major advance, a declined shape and a pin move each answer
      to their own flag and to no other. */
  predicate Consented(files: Files, up: Upstream, req: Request, n: string)
    requires Pins(files).Some? && Vendored(files, n) && n in up.tree
  {
    && (Changes(files, up, n) && MajorBump(up, files[Schema(n)].bytes, up.tree[n]) ==> req.ackMajor)
    && (Changes(files, up, n) && Declined(up, n, up.tree[n]) ==> req.ackDeclined)
    && (PinMoves(files, up, n) ==> Strip(req.reason) != "")
  }

  /** The gates let a run pass exactly when every named schema has the consent its change needs. */
  lemma {:induction false} ConsentGiven(files: Files, up: Upstream, req: Request)
    requires Plannable(files, up, req)
    ensures !Blocked(Plans(files, up, req), req) <==>
            forall i :: 0 <= i < |req.names| ==> Consented(files, up, req, req.names[i])
  {
    var plans := Plans(files, up, req);
    forall i | 0 <= i < |req.names|
      ensures plans[i].Actionable() <==> Changes(files, up, req.names[i])
      ensures plans[i].needsRepin <==> PinMoves(files, up, req.names[i])
      ensures plans[i].major <==> MajorBump(up, files[Schema(req.names[i])].bytes, up.tree[req.names[i]])
      ensures plans[i].declined <==> Declined(up, req.names[i], up.tree[req.names[i]])
    {
      assert plans[i] == PlanFor(files, up, req.names[i]);
    }
    if !Blocked(plans, req) {
      forall i | 0 <= i < |req.names|
        ensures Consented(files, up, req, req.names[i])
      {
        assert plans[i].Actionable() || !Changes(files, up, req.names[i]);
      }
    } else {
      BlockedWhere(plans, req);
      var i :| 0 <= i < |plans| && Blocks(plans[i], req);
      assert !Consented(files, up, req, req.names[i]);
    }
  }

  predicate Blocks(p: Plan, req: Request) {
    (p.Actionable() && ((p.declined && !req.ackDeclined) || (p.major && !req.ackMajor)))
    || (p.needsRepin && Strip(req.reason) == "")
  }

  lemma {:induction false} BlockedWhere(plans: seq<Plan>, req: Request)
    requires Blocked(plans, req)
    ensures exists i :: 0 <= i < |plans| && Blocks(plans[i], req)
  {
    if i :| 0 <= i < |plans| && plans[i].Actionable() && plans[i].declined && !req.ackDeclined {
      assert Blocks(plans[i], req);
    } else if i :| 0 <= i < |plans| && plans[i].Actionable() && plans[i].major && !req.ackMajor {
      assert Blocks(plans[i], req);
    } else {
      var i :| 0 <= i < |plans| && plans[i].needsRepin;
      assert Blocks(plans[i], req);
    }
  }

  /** The names whose pin moves. */
  function Repins(plans: seq<Plan>): (r: seq<string>)
    ensures forall n :: n in r <==> exists i :: 0 <= i < |plans| && plans[i].needsRepin && plans[i].name == n
  {
    if plans == [] then []
    else
      var rest := Repins(plans[1..]);
      assert forall i :: 1 <= i < |plans| ==> plans[i] == plans[1..][i - 1];
      if plans[0].needsRepin then [plans[0].name] + rest else rest
  }

  function HeadOf(up: Upstream, req: Request, name: string): string {
    "Pin moved " + req.today + " to " + up.sha + " (DoE " + req.ref + ") by bin/claude-klabauter-revendor-schema.py " + name + "."
  }

  function Wrap(chunks: seq<string>): int -> seq<string> { left => TextWrap.Wrapped(chunks, left) }

  /** The dated heading and the caller's reason, each wrapped to what the indentation leaves. */
  function NoteFor(up: Upstream, req: Request, name: string): Registry.Note {
    [Registry.Block("# ", 76, Wrap(req.split(HeadOf(up, req, name)))),
     Registry.Block("#   ", NARROWEST, Wrap(req.split(Strip(req.reason))))]
  }

  const NARROWEST := 74

  /** Splitting never leaves a line break in a chunk. */
  ghost predicate SplitsClean(req: Request) { forall text :: TextWrap.Unbroken(req.split(text)) }

  ghost predicate GoodNote(note: Registry.Note) {
    && Registry.WellPrefixed(note)
    && forall i :: 0 <= i < |note| ==> NoBreak(note[i].prefix) && Registry.Unbroken(note[i])
  }

  lemma {:induction false} NoteIsGood(up: Upstream, req: Request, name: string)
    requires SplitsClean(req)
    ensures GoodNote(NoteFor(up, req, name))
  {
    WrapUnbroken("# ", 76, req.split(HeadOf(up, req, name)));
    WrapUnbroken("#   ", NARROWEST, req.split(Strip(req.reason)));
  }

  lemma {:induction false} WrapUnbroken(prefix: string, width: nat, chunks: seq<string>)
    requires TextWrap.Unbroken(chunks)
    ensures Registry.Unbroken(Registry.Block(prefix, width, Wrap(chunks)))
  {
    var block := Registry.Block(prefix, width, Wrap(chunks));
    forall left: int
      ensures Registry.AllUnbroken(block.lines(left))
    {
      TextWrap.WrappedUnbroken(chunks, left);
      assert block.lines(left) == TextWrap.Wrapped(chunks, left);
    }
  }

  /** The note says what the operator said: where splitting loses only whitespace, so does the wrapped
      reason, and every line fits. */
  lemma {:induction false} NoteKeepsReason(req: Request, reason: string, chunks: seq<string>, indent: nat)
    requires indent < NARROWEST && reason == Strip(req.reason) && chunks == req.split(reason)
    requires TextWrap.Squeeze(Concat(chunks)) == TextWrap.Squeeze(reason)
    ensures var lines := TextWrap.Wrapped(chunks, NARROWEST - indent);
            && TextWrap.Squeeze(Concat(lines)) == TextWrap.Squeeze(reason)
            && forall i :: 0 <= i < |lines| ==> |lines[i]| <= NARROWEST - indent
  {
    TextWrap.WrappedKeeps(chunks, reason, NARROWEST - indent);
  }

  function Notes(up: Upstream, req: Request): map<string, Registry.Note> {
    map n | n in req.names :: NoteFor(up, req, n)
  }

  lemma {:induction false} AllPrefixed(up: Upstream, req: Request)
    ensures forall n :: n in req.names ==> n in Notes(up, req) && Registry.WellPrefixed(Notes(up, req)[n])
  {
    forall n | n in req.names
      ensures Registry.WellPrefixed(NoteFor(up, req, n))
    {
      NotePrefixed(up, req, n);
    }
  }

  lemma {:induction false} NotePrefixed(up: Upstream, req: Request, name: string)
    ensures Registry.WellPrefixed(NoteFor(up, req, name))
  {
  }

  /** The file's own line ending. */
  function Eol(lines: seq<string>): string {
    if exists i :: 0 <= i < |lines| && |lines[i]| >= 2 && lines[i][|lines[i]| - 2] == '\r' then "\r\n" else "\n"
  }

  /** The schema bytes after the first `k` plans are written. */
  function BytesWritten(files: Files, plans: seq<Plan>, k: nat): Files
    requires k <= |plans|
  {
    if k == 0 then files
    else
      var before := BytesWritten(files, plans, k - 1);
      if plans[k - 1].needsWrite then before[Schema(plans[k - 1].name) := Raw(plans[k - 1].incoming)] else before
  }

  /** Every file the run may write. */
  function Touched(plans: seq<Plan>, updates: map<string, Entry>): set<File> {
    (set i | 0 <= i < |plans| && plans[i].needsWrite :: Schema(plans[i].name))
    + (if Repins(plans) == [] then {} else {PinRegistryFile})
    + (if updates == map[] then {} else {ManifestFile})
  }

  lemma {:induction false} BytesTouch(files: Files, plans: seq<Plan>, k: nat, updates: map<string, Entry>)
    requires k <= |plans|
    ensures forall f :: f !in Touched(plans, updates) ==>
              (f in BytesWritten(files, plans, k) <==> f in files) &&
              (f in files ==> BytesWritten(files, plans, k)[f] == files[f])
    ensures PinRegistryFile in BytesWritten(files, plans, k) <==> PinRegistryFile in files
    ensures PinRegistryFile in files ==> BytesWritten(files, plans, k)[PinRegistryFile] == files[PinRegistryFile]
    ensures ManifestFile in BytesWritten(files, plans, k) <==> ManifestFile in files
    ensures ManifestFile in files ==> BytesWritten(files, plans, k)[ManifestFile] == files[ManifestFile]
  {
    if k > 0 {
      BytesTouch(files, plans, k - 1, updates);
    }
  }

  /** A name planned twice is planned alike. */
  ghost predicate PlannedAlike(plans: seq<Plan>) {
    forall i, j :: 0 <= i < |plans| && 0 <= j < |plans| && plans[i].name == plans[j].name ==> plans[i] == plans[j]
  }

  /** Every named schema ends at its incoming bytes. */
  lemma {:induction false} BytesLand(files: Files, plans: seq<Plan>, k: nat)
    requires k <= |plans| && PlannedAlike(plans)
    requires forall i :: 0 <= i < |plans| ==>
               Schema(plans[i].name) in files && (!plans[i].needsWrite ==> files[Schema(plans[i].name)] == Raw(plans[i].incoming))
    ensures forall i :: 0 <= i < |plans| ==> Schema(plans[i].name) in BytesWritten(files, plans, k)
    ensures forall i :: 0 <= i < k ==> BytesWritten(files, plans, k)[Schema(plans[i].name)] == Raw(plans[i].incoming)
    ensures forall i :: 0 <= i < |plans| && !plans[i].needsWrite ==>
              BytesWritten(files, plans, k)[Schema(plans[i].name)] == Raw(plans[i].incoming)
  {
    if k > 0 {
      BytesLand(files, plans, k - 1);
    }
  }

  /** LF or CRLF line ends, and no two entries on common lines: enough for any request. */
  ghost predicate Tidy(files: Files) {
    Pins(files).Some? ==>
      var src := files[PinRegistryFile].src;
      PinRewrite.LfLines(PinRewrite.AllLines(src)) && AllApart(src)
  }

  ghost predicate AllApart(src: Registry.Source) {
    forall m, n :: m != n && Registry.Tracks(src, m) && Registry.Tracks(src, n) ==> Registry.Clear(src, m, n)
  }

  /** What the rewriter counts on for this request: LF or CRLF line ends, and the entries it moves apart
      from one another. */
  ghost predicate Editable(files: Files, up: Upstream, req: Request) {
    Plannable(files, up, req) ==>
      var src := files[PinRegistryFile].src;
      && PinRewrite.LfLines(PinRewrite.AllLines(src))
      && Registry.RangesApart(src, Repins(Plans(files, up, req)))
  }

  lemma {:induction false} TidyEditable(files: Files, up: Upstream, req: Request)
    requires Tidy(files) && Registry.Distinct(req.names)
    ensures Editable(files, up, req)
  {
    if Plannable(files, up, req) {
      RepinsDistinct(Plans(files, up, req));
    }
  }

  lemma {:induction false} RepinsTracked(files: Files, up: Upstream, req: Request)
    requires Plannable(files, up, req) && Editable(files, up, req) && SplitsClean(req) && Registry.Literal(up.sha)
    ensures PinRewrite.Ready(files[PinRegistryFile].src, Repins(Plans(files, up, req)), up.sha, Notes(up, req))
    ensures forall n :: n in Repins(Plans(files, up, req)) ==> n in req.names
  {
    var plans := Plans(files, up, req);
    forall n | n in Repins(plans)
      ensures n in req.names && Registry.Tracks(files[PinRegistryFile].src, n)
      ensures n in Notes(up, req) && GoodNote(Notes(up, req)[n])
    {
      var i :| 0 <= i < |plans| && plans[i].needsRepin && plans[i].name == n;
      PinIsTracked(files[PinRegistryFile].src, n);
      NoteIsGood(up, req, n);
    }
  }

  lemma {:induction false} PinIsTracked(src: Registry.Source, n: string)
    requires Registry.Load(src).Some? && n in Registry.Load(src).value
    ensures Registry.Tracks(src, n)
  {
    var ts := Registry.Tokens(src.body);
    Registry.PinsByLastKey(ts, Registry.KeysOf(ts).value, src.consts, n);
  }

  lemma {:induction false} RepinsDistinct(plans: seq<Plan>)
    requires forall i, j :: 0 <= i < j < |plans| ==> plans[i].name != plans[j].name
    ensures Registry.Distinct(Repins(plans))
  {
    if plans != [] {
      RepinsDistinct(plans[1..]);
      var rest := Repins(plans[1..]);
      if plans[0].needsRepin {
        assert plans[0].name !in rest;
      }
    }
  }

  /** Every name whose pin moves can be rewritten, whatever else the registry looks like. */
  lemma {:induction false} RepinsKnown(files: Files, up: Upstream, req: Request)
    requires Plannable(files, up, req)
    ensures forall n :: n in Repins(Plans(files, up, req)) ==>
              && n in req.names && Registry.Tracks(files[PinRegistryFile].src, n)
              && n in Notes(up, req) && Registry.WellPrefixed(Notes(up, req)[n])
  {
    var plans := Plans(files, up, req);
    AllPrefixed(up, req);
    forall n | n in Repins(plans)
      ensures n in req.names && Registry.Tracks(files[PinRegistryFile].src, n)
    {
      var i :| 0 <= i < |plans| && plans[i].needsRepin && plans[i].name == n;
      PinIsTracked(files[PinRegistryFile].src, n);
    }
  }

  /** The registry after the pin moves, as it is read again. */
  function NewRegistry(files: Files, up: Upstream, req: Request): Registry.Source
    requires Plannable(files, up, req)
  {
    RepinsKnown(files, up, req);
    var src := files[PinRegistryFile].src;
    PinRewrite.Next(src, Repins(Plans(files, up, req)), up.sha, Notes(up, req), Eol(PinRewrite.AllLines(src)))
  }

  /** Wrapping a note raises. */
  predicate NoRoom(files: Files, up: Upstream, req: Request)
    requires Plannable(files, up, req)
  {
    RepinsKnown(files, up, req);
    var src := files[PinRegistryFile].src;
    Repins(Plans(files, up, req)) != [] &&
    PinRewrite.NoRoom(src, Repins(Plans(files, up, req)), up.sha, Notes(up, req), Eol(PinRewrite.AllLines(src)))
  }

  ghost predicate Prepared(files: Files, up: Upstream, req: Request) {
    Editable(files, up, req) && SplitsClean(req) && Registry.Literal(up.sha)
  }

  function NewManifest(files: Files, updates: map<string, Entry>): Content
    requires Manifest(files).Some?
  {
    Records(Manifest(files).value + updates)
  }

  /** Schema bytes, then the registry and the manifest where they change. */
  function Assemble(files: Files, plans: seq<Plan>, registry: Option<Content>, manifest: Option<Content>): Files {
    var bytes := BytesWritten(files, plans, |plans|);
    var pinned := if registry.Some? then bytes[PinRegistryFile := registry.value] else bytes;
    if manifest.Some? then pinned[ManifestFile := manifest.value] else pinned
  }

  function RegistryTarget(files: Files, up: Upstream, req: Request): Option<Content>
    requires Plannable(files, up, req)
  {
    if Repins(Plans(files, up, req)) == [] then None else Some(Code(NewRegistry(files, up, req)))
  }

  function ManifestTarget(files: Files, updates: map<string, Entry>): Option<Content>
    requires Manifest(files).Some?
  {
    if updates == map[] then None else Some(NewManifest(files, updates))
  }

  /** The files after all writes. */
  function After(files: Files, up: Upstream, req: Request): Files
    requires Plannable(files, up, req)
  {
    Assemble(files, Plans(files, up, req), RegistryTarget(files, up, req),
             ManifestTarget(files, Updates(up, req.names, Manifest(files).value)))
  }

  // ---------------------------------------------------------------- the run

  /** The write numbered `at` raises and leaves its file holding `left`. */
  datatype Fault = Fault(at: int, left: Option<Content>)

  datatype Exit =
    | Success
    | Refused     // an error or an unsatisfied gate before the first write
    | RolledBack  // a write raised or verification failed; snapshots restored
    | Crashed     // an exception left the run outside the rollback
    | Stranded    // the registry did not read back: exit without rollback

  /** The fault strikes one of `n` writes that start at number `from`. */
  predicate Hits(fault: Fault, from: nat, n: nat) { from <= fault.at < from + n }

  /** How many of the first `k` plans write schema bytes. */
  function SchemaWrites(plans: seq<Plan>, k: nat): nat
    requires k <= |plans|
  {
    if k == 0 then 0 else SchemaWrites(plans, k - 1) + if plans[k - 1].needsWrite then 1 else 0
  }

  lemma {:induction false} SchemaWritesGrow(plans: seq<Plan>, j: nat, k: nat)
    requires j <= k <= |plans|
    ensures SchemaWrites(plans, j) <= SchemaWrites(plans, k)
  {
    if j < k {
      SchemaWritesGrow(plans, j, k - 1);
    }
  }

  function AllWrites(plans: seq<Plan>, updates: map<string, Entry>): nat {
    SchemaWrites(plans, |plans|) + (if Repins(plans) == [] then 0 else 1) + (if updates == map[] then 0 else 1)
  }

  /** What stands between a run and its first write: something to do and no gate in the way. */
  predicate Goes(files: Files, up: Upstream, req: Request) {
    && Plannable(files, up, req) && !req.dryRun && Actionable(Plans(files, up, req)) && !Blocked(Plans(files, up, req), req)
  }

  /** Every write lands. */
  predicate AllWritten(files: Files, writes: nat, up: Upstream, req: Request, fault: Fault)
    requires Plannable(files, up, req)
  {
    && !NoRoom(files, up, req)
    && !Hits(fault, writes, AllWrites(Plans(files, up, req), Updates(up, req.names, Manifest(files).value)))
  }

  /** The written registry cannot be read. */
  predicate Unreadable(files: Files, up: Upstream, req: Request)
    requires Plannable(files, up, req)
  {
    Repins(Plans(files, up, req)) != [] && Pins(After(files, up, req)).None?
  }

  /** Every moved pin reads as the new commit. */
  predicate PinsLanded(files: Files, up: Upstream, req: Request)
    requires Plannable(files, up, req)
  {
    var pins := Pins(After(files, up, req));
    pins.Some? && forall n | n in Repins(Plans(files, up, req)) :: n in pins.value && pins.value[n] == up.sha
  }

  /** What the registry is to become, rewritten through its text where a pin moves. */
  method Rewrite(files: Files, up: Upstream, req: Request) returns (ok: bool, registry: Option<Content>)
    requires Plannable(files, up, req)
    ensures ok <==> !NoRoom(files, up, req)
    ensures ok ==> registry == RegistryTarget(files, up, req)
  {
    var names := Repins(Plans(files, up, req));
    if names == [] {
      return true, None;
    }
    var src := files[PinRegistryFile].src;
    RepinsKnown(files, up, req);
    var text := PinRewrite.RewriteText(src, names, up.sha, Notes(up, req), Eol(PinRewrite.AllLines(src)));
    return text.Some?, Some(Code(NewRegistry(files, up, req)));
  }

  class Workspace {
    var files: Files
    var writes: nat

    method Write(f: File, c: Content, fault: Fault) returns (ok: bool)
      modifies this
      ensures writes == old(writes) + 1
      ensures ok <==> old(writes) != fault.at
      ensures ok ==> files == old(files)[f := c]
      ensures files - {f} == old(files) - {f}
    {
      ok := writes != fault.at;
      writes := writes + 1;
      files := if ok then files[f := c]
               else match fault.left
                    case None => files - {f}
                    case Some(torn) => files[f := torn];
    }

    /** Restore every snapshot, then remove every file the run created. */
    method Rollback(snapshots: Files, created: set<File>)
      requires created !! snapshots.Keys
      modifies this`files
      ensures files == (old(files) - created) + snapshots
    {
      var todo := snapshots.Keys;
      while todo != {}
        invariant todo <= snapshots.Keys
        invariant files == old(files) + map f | f in snapshots.Keys - todo :: snapshots[f]
      {
        var f :| f in todo;
        files := files[f := snapshots[f]];
        todo := todo - {f};
      }
      assert files == old(files) + snapshots;
      var gone := created;
      while gone != {}
        invariant gone <= created
        invariant files == (old(files) + snapshots) - (created - gone)
      {
        var f :| f in gone;
        files := files - {f};
        gone := gone - {f};
      }
      assert created - gone == created;
    }

    method WriteSchemas(plans: seq<Plan>, fault: Fault) returns (ok: bool)
      modifies this
      ensures ok <==> !Hits(fault, old(writes), SchemaWrites(plans, |plans|))
      ensures ok ==> writes == old(writes) + SchemaWrites(plans, |plans|)
      ensures ok ==> files == BytesWritten(old(files), plans, |plans|)
      ensures forall f :: f !in Touched(plans, map[]) ==>
                (f in files <==> f in old(files)) && (f in files ==> files[f] == old(files)[f])
    {
      ok := true;
      for k := 0 to |plans|
        invariant ok && !Hits(fault, old(writes), SchemaWrites(plans, k))
        invariant writes == old(writes) + SchemaWrites(plans, k)
        invariant files == BytesWritten(old(files), plans, k)
      {
        if plans[k].needsWrite {
          BytesTouch(old(files), plans, k, map[]);
          ok := Write(Schema(plans[k].name), Raw(plans[k].incoming), fault);
          if !ok {
            assert Schema(plans[k].name) in Touched(plans, map[]);
            SameElsewhere(files, BytesWritten(old(files), plans, k), Schema(plans[k].name));
            SchemaWritesGrow(plans, k + 1, |plans|);
            return;
          }
        }
      }
      BytesTouch(old(files), plans, |plans|, map[]);
    }

    /** Write `f` where there is something to write. */
    method WriteIf(f: File, target: Option<Content>, fault: Fault) returns (ok: bool)
      modifies this
      ensures ok <==> !(target.Some? && old(writes) == fault.at)
      ensures ok ==> writes == old(writes) + if target.Some? then 1 else 0
      ensures ok ==> files == if target.Some? then old(files)[f := target.value] else old(files)
      ensures target.None? ==> files == old(files)
      ensures OnlyTouched(files, old(files), {f})
    {
      ok := true;
      if target.Some? {
        ok := Write(f, target.value, fault);
        SameElsewhere(files, old(files), f);
      }
    }

    /** Schema bytes, then the registry, then the manifest. */
    method Apply(up: Upstream, req: Request, plans: seq<Plan>, updates: map<string, Entry>, fault: Fault)
      returns (ok: bool)
      requires Plannable(files, up, req)
      requires plans == Plans(files, up, req) && updates == Updates(up, req.names, Manifest(files).value)
      modifies this
      ensures ok <==> AllWritten(old(files), old(writes), up, req, fault)
      ensures ok ==> files == After(old(files), up, req)
      ensures OnlyTouched(files, old(files), Touched(plans, updates))
    {
      var manifest := ManifestTarget(files, updates);
      var fits, registry := Rewrite(files, up, req);
      ok := WriteSchemas(plans, fault);
      if !ok || !fits {
        return false;
      }
      ok := WriteIf(PinRegistryFile, registry, fault);
      if ok {
        ok := WriteIf(ManifestFile, manifest, fault);
      }
    }

    /** Write, then verify both oracles; a write that raises or a failed check restores every file, but a
        registry that cannot be read again ends the run where it is. */
    method Land(up: Upstream, req: Request, fault: Fault, drifted: bool) returns (exit: Exit)
      requires Plannable(files, up, req)
      modifies this
      ensures exit == Success || exit == RolledBack || exit == Stranded
      ensures exit == RolledBack ==> files == old(files)
      ensures exit != RolledBack ==> files == After(old(files), up, req)
      ensures exit == Stranded <==> AllWritten(old(files), old(writes), up, req, fault) && Unreadable(old(files), up, req)
      ensures exit == Success <==>
                && AllWritten(old(files), old(writes), up, req, fault)
                && !drifted && PinsLanded(old(files), up, req)
    {
      var plans := Plans(files, up, req);
      var updates := Updates(up, req.names, Manifest(files).value);
      var touched := Touched(plans, updates);
      var snapshots := map f | f in touched && f in files :: files[f];
      var created := touched - files.Keys;
      var ok := Apply(up, req, plans, updates, fault);
      if ok {
        var reread := Pins(files);
        var landed := reread.Some? && forall n | n in Repins(plans) :: n in reread.value && reread.value[n] == up.sha;
        if Repins(plans) != [] && reread.None? {
          return Stranded;
        }
        exit := if drifted || !landed then RolledBack else Success;
      } else {
        exit := RolledBack;
      }
      if exit == RolledBack {
        Restored(files, old(files), touched);
        Rollback(snapshots, created);
      }
    }

    /** The whole run, on any workspace. `drifted` says that the byte oracles found a difference after the
        writes. */
    method Run(up: Upstream, req: Request, fault: Fault, drifted: bool) returns (exit: Exit)
      modifies this
      ensures Ends(old(files), up, req, exit, files)
      ensures exit == Refused <==>
                !Plannable(old(files), up, req)
                || (!req.dryRun && Actionable(Plans(old(files), up, req)) && Blocked(Plans(old(files), up, req), req))
      ensures exit == RolledBack <==>
                && Goes(old(files), up, req)
                && !(&& AllWritten(old(files), old(writes), up, req, fault)
                     && (Unreadable(old(files), up, req) || (!drifted && PinsLanded(old(files), up, req))))
      ensures exit == Stranded <==>
                && Goes(old(files), up, req)
                && AllWritten(old(files), old(writes), up, req, fault) && Unreadable(old(files), up, req)
      ensures exit == Crashed <==>
                && Plannable(old(files), up, req) && !req.dryRun
                && !Actionable(Plans(old(files), up, req))
                && Updates(up, req.names, Manifest(old(files)).value) != map[]
                && old(writes) == fault.at
      ensures req.dryRun || Settled(old(files), up, req) ==> writes == old(writes)
    {
      if !Plannable(files, up, req) {
        return Refused;
      }
      var plans := Plans(files, up, req);
      var updates := Updates(up, req.names, Manifest(files).value);
      if !Actionable(plans) {
        NothingActionable(files, up, req);
        exit := Success;
        if updates != map[] && !req.dryRun {
          var ok := Write(ManifestFile, NewManifest(files, updates), fault);
          exit := if ok then Success else Crashed;
        }
        return;
      }
      if req.dryRun {
        return Success;
      }
      if Blocked(plans, req) {
        return Refused;
      }
      exit := Land(up, req, fault, drifted);
    }

    /** A run that succeeds, repeated at once: the second run succeeds without a single write. */
    method RunTwice(up: Upstream, req: Request, fault: Fault, drifted: bool)
        returns (first: Exit, second: Exit, ghost between: Snapshot)
      requires Prepared(files, up, req) && !req.dryRun
      modifies this
      ensures first != Success ==> second == first
      ensures first == Success ==>
                && second == Success && Snapshot(files, writes) == between
                && Plannable(old(files), up, req) && files == After(old(files), up, req)
    {
      first := Run(up, req, fault, drifted);
      second, between := first, Snapshot(files, writes);
      if first == Success {
        AfterPrepared(old(files), up, req);
        second := Run(up, req, fault, drifted);
        SettledStays(between.files, up, req, files);
      }
    }
  }

  /** What each ending means for the files. */
  ghost predicate Ends(before: Files, up: Upstream, req: Request, exit: Exit, after: Files) {
    && (exit == Refused || exit == RolledBack || req.dryRun ==> after == before)
    && (exit == Success && !req.dryRun ==> Plannable(before, up, req) && after == After(before, up, req) && PinsLanded(before, up, req))
    && (exit == Stranded ==> Plannable(before, up, req) && after == After(before, up, req) && Unreadable(before, up, req))
    && (exit == Crashed ==> after - {ManifestFile} == before - {ManifestFile})
  }

  /** The files and the number of writes so far. */
  datatype Snapshot = Snapshot(files: Files, writes: nat)

  lemma {:induction false} SameElsewhere(a: Files, b: Files, f: File)
    requires a - {f} == b - {f}
    ensures forall g :: g != f ==> (g in a <==> g in b) && (g in a ==> a[g] == b[g])
  {
    forall g | g != f
      ensures (g in a <==> g in b) && (g in a ==> a[g] == b[g])
    {
      assert g in a <==> g in a - {f};
      assert g in b <==> g in b - {f};
    }
  }

  lemma {:induction false} TidyApartFromManifest(before: Files, after: Files)
    requires before - {ManifestFile} == after - {ManifestFile}
    ensures Tidy(before) <==> Tidy(after)
  {
    SameElsewhere(before, after, ManifestFile);
  }

  ghost predicate OnlyTouched(files: Files, before: Files, touched: set<File>) {
    forall f :: f !in touched ==> (f in files <==> f in before) && (f in files ==> files[f] == before[f])
  }

  lemma {:induction false} Restored(files: Files, before: Files, touched: set<File>)
    requires OnlyTouched(files, before, touched)
    ensures (files - (touched - before.Keys)) + (map f | f in touched && f in before :: before[f]) == before
  {
  }

  /** Nothing to write and nothing to record. */
  predicate Settled(files: Files, up: Upstream, req: Request) {
    && Plannable(files, up, req)
    && !Actionable(Plans(files, up, req))
    && Updates(up, req.names, Manifest(files).value) == map[]
  }

  lemma {:induction false} NothingActionable(files: Files, up: Upstream, req: Request)
    requires Plannable(files, up, req) && !Actionable(Plans(files, up, req))
    ensures PinsLanded(files, up, req)
    ensures var updates := Updates(up, req.names, Manifest(files).value);
            After(files, up, req) == if updates == map[] then files else files[ManifestFile := NewManifest(files, updates)]
  {
    var plans := Plans(files, up, req);
    NoBytes(files, plans, |plans|);
    NoRepins(plans);
    AfterRegistry(files, up, req);
  }

  lemma {:induction false} SettledStays(before: Files, up: Upstream, req: Request, after: Files)
    requires Settled(before, up, req) && Ends(before, up, req, Success, after)
    ensures after == before
  {
    if !req.dryRun {
      NothingActionable(before, up, req);
    }
  }

  lemma {:induction false} NoRepins(plans: seq<Plan>)
    requires !Actionable(plans)
    ensures Repins(plans) == []
  {
    if plans != [] {
      assert !plans[0].Actionable();
      assert forall i :: 0 <= i < |plans[1..]| ==> plans[1..][i] == plans[i + 1];
      NoRepins(plans[1..]);
    }
  }

  lemma {:induction false} NoBytes(files: Files, plans: seq<Plan>, k: nat)
    requires k <= |plans| && !Actionable(plans)
    ensures BytesWritten(files, plans, k) == files
  {
    if k > 0 {
      NoBytes(files, plans, k - 1);
      assert !plans[k - 1].Actionable();
    }
  }

  /** The registry the writes leave. */
  lemma {:induction false} AfterRegistry(files: Files, up: Upstream, req: Request)
    requires Plannable(files, up, req)
    ensures PinRegistryFile in After(files, up, req)
    ensures After(files, up, req)[PinRegistryFile] ==
            if Repins(Plans(files, up, req)) == [] then files[PinRegistryFile] else Code(NewRegistry(files, up, req))
  {
    AssembleRegistry(files, Plans(files, up, req), RegistryTarget(files, up, req),
                     ManifestTarget(files, Updates(up, req.names, Manifest(files).value)));
  }

  lemma {:induction false} AssembleRegistry(files: Files, plans: seq<Plan>, registry: Option<Content>, manifest: Option<Content>)
    requires PinRegistryFile in files
    ensures var after := Assemble(files, plans, registry, manifest);
            && PinRegistryFile in after
            && after[PinRegistryFile] == if registry.Some? then registry.value else files[PinRegistryFile]
  {
    BytesTouch(files, plans, |plans|, map[]);
  }

  /** After the writes the registry reads back, with exactly the moved pins at the new commit. */
  lemma {:induction false} AfterPins(files: Files, up: Upstream, req: Request)
    requires Plannable(files, up, req) && Prepared(files, up, req)
    ensures Pins(After(files, up, req)) ==
            Some(Registry.Moved(Pins(files).value, Repins(Plans(files, up, req)), up.sha))
  {
    var names := Repins(Plans(files, up, req));
    var src := files[PinRegistryFile].src;
    AfterRegistry(files, up, req);
    if names == [] {
      assert Registry.Moved(Pins(files).value, [], up.sha) == Pins(files).value;
    } else {
      RepinsTracked(files, up, req);
      PinRewrite.ReadyText(src, names, up.sha, Notes(up, req), Eol(PinRewrite.AllLines(src)));
    }
  }

  /** What a run leaves is fit for the same request again, and a tidy registry stays tidy. */
  lemma {:induction false} AfterPrepared(files: Files, up: Upstream, req: Request)
    requires Plannable(files, up, req) && Prepared(files, up, req)
    ensures Settled(After(files, up, req), up, req) && Prepared(After(files, up, req), up, req)
    ensures Tidy(files) ==> Tidy(After(files, up, req))
  {
    var after := After(files, up, req);
    AfterMeans(files, up, req);
    SecondRunSettled(files, after, up, req);
    NoRepins(Plans(after, up, req));
    AfterRegistry(files, up, req);
    var src, names := files[PinRegistryFile].src, Repins(Plans(files, up, req));
    if names != [] {
      RepinsTracked(files, up, req);
      PinRewrite.NextIsRewritten(src, names, up.sha, Notes(up, req), Eol(PinRewrite.AllLines(src)));
      PinRewrite.RewrittenLf(src, names, up.sha, Notes(up, req), Eol(PinRewrite.AllLines(src)));
      if Tidy(files) {
        ApartKept(src, names, up.sha, Notes(up, req), Eol(PinRewrite.AllLines(src)));
      }
    }
  }

  lemma {:induction false} ApartKept(src: Registry.Source, names: seq<string>, sha: string, notes: map<string, Registry.Note>, eol: string)
    requires PinRewrite.Ready(src, names, sha, notes) && AllApart(src)
    ensures AllApart(Registry.Rewritten(src, names, sha, notes, eol))
  {
    var next := Registry.Rewritten(src, names, sha, notes, eol);
    forall m, n | m != n && Registry.Tracks(next, m) && Registry.Tracks(next, n)
      ensures Registry.Clear(next, m, n)
    {
      PinRewrite.KeyKept(src, names, sha, notes, eol, m);
      PinRewrite.KeyKept(src, names, sha, notes, eol, n);
      assert Registry.Clear(src, m, n);
      PinRewrite.ClearKept(src, names, sha, notes, eol, m, n);
    }
  }

  /** What success means: every named schema at its incoming bytes and recorded in the manifest,
      every tracked name pinned at the commit, and all other schemas and pins as they were. */
  ghost predicate Revendored(before: Files, after: Files, up: Upstream, req: Request)
    requires Plannable(before, up, req)
  {
    && Pins(after).Some? && Manifest(after).Some?
    && Pins(after).value.Keys == Pins(before).value.Keys
    && (forall i :: 0 <= i < |req.names| ==> NameDone(before, after, up, req.names[i]))
    && (forall n :: n !in req.names ==> NameKept(before, after, n))
  }

  ghost predicate NameDone(before: Files, after: Files, up: Upstream, n: string)
    requires Manifest(before).Some? && Manifest(after).Some? && Pins(after).Some? && n in up.tree
  {
    && Schema(n) in after && after[Schema(n)] == Raw(up.tree[n])
    && (n in Pins(after).value ==> Pins(after).value[n] == up.sha)
    && Key(n) in Manifest(after).value
    && Manifest(after).value[Key(n)] == EntryFor(up, n, Manifest(before).value)
  }

  ghost predicate NameKept(before: Files, after: Files, n: string)
    requires Pins(before).Some? && Pins(after).Some?
  {
    && (Schema(n) in after <==> Schema(n) in before)
    && (Schema(n) in before ==> after[Schema(n)] == before[Schema(n)])
    && (n in Pins(before).value <==> n in Pins(after).value)
    && (n in Pins(before).value ==> Pins(after).value[n] == Pins(before).value[n])
  }

  lemma {:induction false} AfterMeans(files: Files, up: Upstream, req: Request)
    requires Plannable(files, up, req) && Prepared(files, up, req)
    ensures Revendored(files, After(files, up, req), up, req)
  {
    AfterPins(files, up, req);
    AfterManifest(files, up, req);
    AfterSchemas(files, up, req);
    MovedNames(files, up, req);
  }

  lemma {:induction false} MovedNames(files: Files, up: Upstream, req: Request)
    requires Plannable(files, up, req) && Prepared(files, up, req)
    ensures var pins := Pins(files).value;
            var moved := Registry.Moved(pins, Repins(Plans(files, up, req)), up.sha);
            && moved.Keys == pins.Keys
            && (forall i :: 0 <= i < |req.names| ==> req.names[i] in pins ==> moved[req.names[i]] == up.sha)
            && (forall n :: n !in req.names && n in pins ==> moved[n] == pins[n])
  {
    var plans := Plans(files, up, req);
    assert forall n :: n in Repins(plans) ==> n in Pins(files).value && n in req.names;
    forall i | 0 <= i < |req.names| && req.names[i] in Pins(files).value
      ensures Registry.Moved(Pins(files).value, Repins(plans), up.sha)[req.names[i]] == up.sha
    {
      assert plans[i].name == req.names[i];
    }
  }

  lemma {:induction false} AssembleSchemas(files: Files, plans: seq<Plan>, registry: Option<Content>, manifest: Option<Content>)
    requires forall i :: 0 <= i < |plans| ==>
               Schema(plans[i].name) in files && (!plans[i].needsWrite ==> files[Schema(plans[i].name)] == Raw(plans[i].incoming))
    requires PlannedAlike(plans)
    ensures var after := Assemble(files, plans, registry, manifest);
            && (forall i :: 0 <= i < |plans| ==>
                  Schema(plans[i].name) in after && after[Schema(plans[i].name)] == Raw(plans[i].incoming))
            && (forall n :: (forall i :: 0 <= i < |plans| ==> plans[i].name != n) ==>
                  && (Schema(n) in after <==> Schema(n) in files)
                  && (Schema(n) in files ==> after[Schema(n)] == files[Schema(n)]))
  {
    BytesLand(files, plans, |plans|);
    BytesTouch(files, plans, |plans|, map[]);
    forall n | forall i :: 0 <= i < |plans| ==> plans[i].name != n
      ensures Schema(n) !in Touched(plans, map[])
    {
    }
  }

  lemma {:induction false} AfterSchemas(files: Files, up: Upstream, req: Request)
    requires Plannable(files, up, req) && Prepared(files, up, req)
    ensures forall i :: 0 <= i < |req.names| ==>
              && Schema(req.names[i]) in After(files, up, req)
              && After(files, up, req)[Schema(req.names[i])] == Raw(up.tree[req.names[i]])
    ensures forall n :: n !in req.names ==>
              && (Schema(n) in After(files, up, req) <==> Schema(n) in files)
              && (Schema(n) in files ==> After(files, up, req)[Schema(n)] == files[Schema(n)])
  {
    var plans := Plans(files, up, req);
    AssembleSchemas(files, plans, RegistryTarget(files, up, req),
                    ManifestTarget(files, Updates(up, req.names, Manifest(files).value)));
    assert forall i :: 0 <= i < |req.names| ==> plans[i].name == req.names[i] && plans[i].incoming == up.tree[req.names[i]];
  }

  lemma {:induction false} AfterManifest(files: Files, up: Upstream, req: Request)
    requires Plannable(files, up, req) && Prepared(files, up, req)
    ensures Manifest(After(files, up, req)) ==
            Some(Manifest(files).value + Updates(up, req.names, Manifest(files).value))
    ensures forall i :: 0 <= i < |req.names| ==>
              && Key(req.names[i]) in Manifest(After(files, up, req)).value
              && Manifest(After(files, up, req)).value[Key(req.names[i])] == EntryFor(up, req.names[i], Manifest(files).value)
  {
    var have := Manifest(files).value;
    AssembleManifest(files, Plans(files, up, req), RegistryTarget(files, up, req), Updates(up, req.names, have));
    UpdatesSettle(up, req.names, have);
  }

  lemma {:induction false} AssembleManifest(files: Files, plans: seq<Plan>, registry: Option<Content>, updates: map<string, Entry>)
    requires Manifest(files).Some?
    ensures Manifest(Assemble(files, plans, registry, ManifestTarget(files, updates))) ==
            Some(Manifest(files).value + updates)
  {
    BytesTouch(files, plans, |plans|, map[]);
    var have := Manifest(files).value;
    assert have + map[] == have;
  }

  lemma {:induction false} SettledRows(up: Upstream, names: seq<string>, have: map<string, Entry>)
    requires forall i :: 0 <= i < |names| ==> names[i] in up.tree
    requires forall i :: 0 <= i < |names| ==> Key(names[i]) in have && have[Key(names[i])] == EntryFor(up, names[i], have)
    ensures Updates(up, names, have) == map[]
  {
    if names != [] {
      SettledRows(up, names[..|names| - 1], have);
    }
  }

  lemma {:induction false} SettledPlan(files: Files, up: Upstream, name: string)
    requires Pins(files).Some? && name in up.tree
    requires Schema(name) in files && files[Schema(name)] == Raw(up.tree[name])
    requires name in Pins(files).value ==> Pins(files).value[name] == up.sha
    ensures !PlanFor(files, up, name).Actionable()
  {
  }

  /** Once re-vendored, an immediate second run at the same commit finds nothing to do. */
  lemma {:induction false} SecondRunSettled(before: Files, after: Files, up: Upstream, req: Request)
    requires Plannable(before, up, req) && Revendored(before, after, up, req)
    ensures Settled(after, up, req)
  {
    forall i | 0 <= i < |req.names|
      ensures Vendored(after, req.names[i]) && req.names[i] in up.tree
      ensures !PlanFor(after, up, req.names[i]).Actionable()
      ensures Key(req.names[i]) in Manifest(after).value
      ensures Manifest(after).value[Key(req.names[i])] == EntryFor(up, req.names[i], Manifest(after).value)
    {
      assert NameDone(before, after, up, req.names[i]);
      SettledPlan(after, up, req.names[i]);
    }
    SettledRows(up, req.names, Manifest(after).value);
  }

  // ---------------------------------------------------------------- any sequence of runs

  /** A run on prepared files reads its pins back. */
  lemma {:induction false} PreparedLands(files: Files, up: Upstream, req: Request)
    requires Plannable(files, up, req) && Prepared(files, up, req)
    ensures PinsLanded(files, up, req) && !Unreadable(files, up, req)
  {
    AfterPins(files, up, req);
  }

  datatype Step = Step(up: Upstream, req: Request, exit: Exit, after: Files)

  ghost predicate History(before: Files, steps: seq<Step>)
    decreases |steps|
  {
    steps == [] ||
    (Ends(before, steps[0].up, steps[0].req, steps[0].exit, steps[0].after) && History(steps[0].after, steps[1..]))
  }

  function Last(before: Files, steps: seq<Step>): Files { if steps == [] then before else steps[|steps| - 1].after }

  /** Requests that name each schema once, to commits that can be written as a literal. */
  ghost predicate Fair(steps: seq<Step>) {
    forall i :: 0 <= i < |steps| ==>
      Registry.Distinct(steps[i].req.names) && SplitsClean(steps[i].req) && Registry.Literal(steps[i].up.sha)
  }

  /** The pins after a run, said without looking at the files. */
  function Repinned(pins: Option<Registry.Pins>, step: Step): Option<Registry.Pins> {
    if pins.None? || step.exit != Success || step.req.dryRun then pins
    else Some(pins.value + map n | n in pins.value && n in step.req.names :: step.up.sha)
  }

  function Overlaid(pins: Option<Registry.Pins>, steps: seq<Step>): Option<Registry.Pins>
    decreases |steps|
  {
    if steps == [] then pins else Overlaid(Repinned(pins, steps[0]), steps[1..])
  }

  lemma {:induction false} RunOnTidy(before: Files, step: Step)
    requires Tidy(before) && Ends(before, step.up, step.req, step.exit, step.after) && Fair([step])
    ensures Tidy(step.after) && step.exit != Stranded && Pins(step.after) == Repinned(Pins(before), step)
  {
    var up, req := step.up, step.req;
    assert Registry.Distinct([step][0].req.names) && SplitsClean([step][0].req) && Registry.Literal([step][0].up.sha);
    TidyEditable(before, up, req);
    if Plannable(before, up, req) {
      PreparedLands(before, up, req);
      AfterPrepared(before, up, req);
      AfterRepinned(before, up, req);
    }
    if step.exit == Crashed {
      TidyApartFromManifest(before, step.after);
      SameElsewhere(before, step.after, ManifestFile);
    }
  }

  lemma {:induction false} AfterRepinned(files: Files, up: Upstream, req: Request)
    requires Plannable(files, up, req) && Prepared(files, up, req)
    ensures var pins := Pins(files).value;
            Pins(After(files, up, req)) == Some(pins + map n | n in pins && n in req.names :: up.sha)
  {
    AfterPins(files, up, req);
    MovedNames(files, up, req);
    SameOverlay(Pins(files).value, Registry.Moved(Pins(files).value, Repins(Plans(files, up, req)), up.sha), req.names, up.sha);
  }

  lemma {:induction false} SameOverlay(pins: Registry.Pins, moved: Registry.Pins, names: seq<string>, sha: string)
    requires moved.Keys == pins.Keys
    requires forall i :: 0 <= i < |names| && names[i] in pins ==> moved[names[i]] == sha
    requires forall n :: n !in names && n in pins ==> moved[n] == pins[n]
    ensures moved == pins + map n | n in pins && n in names :: sha
  {
    var overlay := pins + map n | n in pins && n in names :: sha;
    forall n | n in pins
      ensures moved[n] == overlay[n]
    {
      if n in names {
        var i :| 0 <= i < |names| && names[i] == n;
      }
    }
  }

  /** From a tidy registry, whatever runs follow and however they end: none strands, the registry stays
      tidy, and its pins are the old ones overlaid by the runs that succeeded, in order. */
  lemma {:induction false} TidyHistory(before: Files, steps: seq<Step>)
    requires Tidy(before) && History(before, steps) && Fair(steps)
    ensures Tidy(Last(before, steps)) && Pins(Last(before, steps)) == Overlaid(Pins(before), steps)
    ensures forall i :: 0 <= i < |steps| ==> steps[i].exit != Stranded
    decreases |steps|
  {
    if steps != [] {
      RunOnTidy(before, steps[0]);
      TidyHistory(steps[0].after, steps[1..]);
    }
  }

  // ---------------------------------------------------------------- which pins land, and a run that strands

  /** All moved values land on their tokens if and only if the moved entries' line ranges do not meet. */
  lemma {:induction false} RepinsLandIff(files: Files, up: Upstream, req: Request)
    requires Plannable(files, up, req) && Registry.Distinct(req.names) && Registry.Literal(up.sha)
    ensures var src, lines := files[PinRegistryFile].src, PinRewrite.AllLines(files[PinRegistryFile].src);
            && RepinsTrackedAll(files, up, req)
            && var order := PinRewrite.SortDown(Registry.MovesOf(src, Repins(Plans(files, up, req)), up.sha, Notes(up, req)));
               && PinRewrite.Inside(order, |lines|)
               && (PinRewrite.AllLanded(lines, order, PinRewrite.NotesUsed(lines, order, Eol(lines)))
                   <==> Registry.RangesApart(src, Repins(Plans(files, up, req))))
  {
    var src := files[PinRegistryFile].src;
    var names, notes := Repins(Plans(files, up, req)), Notes(up, req);
    RepinsKnown(files, up, req);
    RepinsDistinct(Plans(files, up, req));
    forall n | n in names
      ensures notes[n] != [] && Registry.Tokens(src.body)[Registry.KeyOf(src, n) + 2] != Registry.Str(up.sha)
    {
      RepinIsStale(files, up, req, n);
    }
    PinRewrite.PinsLandIff(src, names, up.sha, notes, Eol(PinRewrite.AllLines(src)));
  }

  predicate RepinsTrackedAll(files: Files, up: Upstream, req: Request)
    requires Plannable(files, up, req)
  {
    forall n | n in Repins(Plans(files, up, req)) ::
      && Registry.Tracks(files[PinRegistryFile].src, n) && n in Notes(up, req) && Registry.WellPrefixed(Notes(up, req)[n])
  }

  lemma {:induction false} RepinIsStale(files: Files, up: Upstream, req: Request, n: string)
    requires Plannable(files, up, req) && n in Repins(Plans(files, up, req))
    ensures Registry.Tracks(files[PinRegistryFile].src, n)
    ensures var src := files[PinRegistryFile].src;
            Registry.Tokens(src.body)[Registry.KeyOf(src, n) + 2] != Registry.Str(up.sha)
  {
    var plans := Plans(files, up, req);
    var i :| 0 <= i < |plans| && plans[i].needsRepin && plans[i].name == n;
    StalePin(files[PinRegistryFile].src, n, up.sha);
  }

  lemma {:induction false} StalePin(src: Registry.Source, n: string, sha: string)
    requires Registry.Load(src).Some? && n in Registry.Load(src).value && Registry.Load(src).value[n] != sha
    ensures Registry.Tracks(src, n) && Registry.Tokens(src.body)[Registry.KeyOf(src, n) + 2] != Registry.Str(sha)
  {
    PinIsTracked(src, n);
    var ts := Registry.Tokens(src.body);
    Registry.PinsByLastKey(ts, Registry.KeysOf(ts).value, src.consts, n);
  }

  /** A request for the two entries of a tight registry: the run, unless a write fails, ends without
      rollback and without a registry that can be read. */
  lemma {:induction false} TightStrands(files: Files, up: Upstream, req: Request, a: string, b: string, x: string, y: string)
    requires Plannable(files, up, req) && files[PinRegistryFile] == Code(PinRewrite.Tight(a, b, x, y)) && req.names == [a, b]
    requires Registry.Literal(a) && Registry.Literal(b) && Registry.Literal(x) && Registry.Literal(y) && Registry.Literal(up.sha)
    requires a != b && up.sha != x && up.sha != y && SplitsClean(req)
    requires PinRewrite.Overwritten(
               Registry.NoteLines(NoteFor(up, req, b), "", Eol(PinRewrite.AllLines(PinRewrite.Tight(a, b, x, y)))), |x| + 2)
    ensures Unreadable(files, up, req)
  {
    var src := PinRewrite.Tight(a, b, x, y);
    PinRewrite.TightLoads(a, b, x, y);
    BothMove(files, up, req, a, b);
    NoteIsGood(up, req, a);
    NoteIsGood(up, req, b);
    PinRewrite.TightUnreadable(a, b, x, y, up.sha, Notes(up, req), Eol(PinRewrite.AllLines(src)));
    AfterRegistry(files, up, req);
  }

  lemma {:induction false} BothMove(files: Files, up: Upstream, req: Request, a: string, b: string)
    requires Plannable(files, up, req) && req.names == [a, b] && PinMoves(files, up, a) && PinMoves(files, up, b)
    ensures Repins(Plans(files, up, req)) == [a, b]
  {
    var plans := Plans(files, up, req);
    assert plans[1..] == [plans[1]] && plans[1..][1..] == [];
    assert Repins(plans[1..]) == [b];
  }
}
