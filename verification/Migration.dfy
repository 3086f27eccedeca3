/** The two upgrade tools: scripts/preflight_upgrade.py (diff_spec) and scripts/dry-run-migration.py
    (classify_change), over already extracted contract specs. */
module Migration {
  import opened Options

  // A Python dict in insertion order.
  datatype Entry<V> = Entry(name: string, value: V)
  type Dict<V> = seq<Entry<V>>

  function Get<V>(d: Dict<V>, name: string): Option<V> {
    if d == [] then None else if d[0].name == name then Some(d[0].value) else Get(d[1..], name)
  }

  datatype Spec = Spec(functions: Dict<string>, errors: Dict<string>, dataTypes: Dict<seq<string>>,
      events: Dict<seq<string>>)

  // ---------- what breaks ----------

  datatype Break =
    | FunctionRemoved(name: string)
    | SignatureChanged(name: string)
    | ErrorRemoved(name: string, code: string)
    | DiscriminantChanged(name: string, code: string, newCode: string)
    | TypeRemoved(name: string)
    | EntryRemoved(name: string, entry: string)
    | EventRemoved(name: string)
    | FieldsChanged(name: string)

  function FunctionBreak(f: Entry<string>, current: Dict<string>): seq<Break> {
    match Get(current, f.name)
    case None => [FunctionRemoved(f.name)]
    case Some(sig) => if sig != f.value then [SignatureChanged(f.name)] else []
  }

  function ErrorBreak(e: Entry<string>, current: Dict<string>): seq<Break> {
    match Get(current, e.name)
    case None => [ErrorRemoved(e.name, e.value)]
    case Some(code) => if code != e.value then [DiscriminantChanged(e.name, e.value, code)] else []
  }

  function EntryBreaks(name: string, entries: seq<string>, current: seq<string>): seq<Break> {
    if entries == [] then []
    else
      var last := entries[|entries| - 1];
      EntryBreaks(name, entries[..|entries| - 1], current) + if last in current then [] else [EntryRemoved(name, last)]
  }

  function TypeBreak(t: Entry<seq<string>>, current: Dict<seq<string>>): seq<Break> {
    match Get(current, t.name)
    case None => [TypeRemoved(t.name)]
    case Some(entries) => EntryBreaks(t.name, t.value, entries)
  }

  function EventBreak(e: Entry<seq<string>>, current: Dict<seq<string>>): seq<Break> {
    match Get(current, e.name)
    case None => [EventRemoved(e.name)]
    case Some(fields) => if fields != e.value then [FieldsChanged(e.name)] else []
  }

  function Collect<V>(d: Dict<V>, current: Dict<V>, breaks: (Entry<V>, Dict<V>) -> seq<Break>): seq<Break> {
    if d == [] then []
    else Collect(d[..|d| - 1], current, breaks) + breaks(d[|d| - 1], current)
  }

  function Breaks(b: Spec, c: Spec): seq<Break> {
    Collect(b.functions, c.functions, FunctionBreak) + Collect(b.errors, c.errors, ErrorBreak)
    + Collect(b.dataTypes, c.dataTypes, TypeBreak) + Collect(b.events, c.events, EventBreak)
  }

  // ---------- how the tools report it ----------

  datatype Tool = Preflight | DryRun

  function Render(tool: Tool, b: Break): string {
    match b
    case FunctionRemoved(name) => "function `" + name + "` was removed from PromptHashTrait"
    case SignatureChanged(name) => "function `" + name + "` signature changed"
    case ErrorRemoved(name, code) => "Error variant `" + name + "` (=" + code + ") was removed"
    case DiscriminantChanged(name, code, newCode) =>
      if tool == Preflight then "Error variant `" + name + "` discriminant changed (" + code + " -> " + newCode + ")"
      else "Error variant `" + name + "` discriminant changed"
    case TypeRemoved(name) => "type `" + name + "` was removed"
    case EntryRemoved(name, entry) => "`" + name + "`: `" + entry + "` was removed or changed shape"
    case EventRemoved(name) => "event `" + name + "` was removed"
    case FieldsChanged(name) => "event `" + name + "` field list changed"
  }

  function RenderAll(tool: Tool, breaks: seq<Break>): seq<string> {
    seq(|breaks|, i requires 0 <= i < |breaks| => Render(tool, breaks[i]))
  }

  lemma RenderAppend(tool: Tool, xs: seq<Break>, ys: seq<Break>)
    ensures RenderAll(tool, xs + ys) == RenderAll(tool, xs) + RenderAll(tool, ys)
  {
  }

  // ---------- storage families, recovered from the text ----------

  function SplitTicks(s: string): (parts: seq<string>)
    ensures |parts| > 0
  {
    if s == "" then [""]
    else
      var rest := SplitTicks(s[1..]);
      if s[0] == '`' then [""] + rest else [[s[0]] + rest[0]] + rest[1..]
  }

  // s.split("` was")[0]
  function BeforeWas(s: string): string {
    if s == "" || "` was" <= s then "" else [s[0]] + BeforeWas(s[1..])
  }

  // s.split("(")[0]
  function BeforeParen(s: string): string {
    if s == "" || s[0] == '(' then "" else [s[0]] + BeforeParen(s[1..])
  }

  // IndexError when the text has a colon before "` was" but fewer than three backticks.
  datatype Parse = NoFamily | Family(name: string) | IndexError

  function ParseFamily(change: string): Parse {
    if ':' in BeforeWas(change) && '`' in change then
      var parts := SplitTicks(change);
      if |parts| <= 3 then IndexError
      else if parts[1] == "DataKey" then Family(BeforeParen(parts[3]))
      else NoFamily
    else
      NoFamily
  }

  // None when some text raises an IndexError.
  function ParseFamilies(changes: seq<string>): Option<set<string>> {
    if changes == [] then Some({})
    else
      var before := ParseFamilies(changes[..|changes| - 1]);
      match ParseFamily(changes[|changes| - 1])
      case IndexError => None
      case NoFamily => before
      case Family(name) => if before.Some? then Some(before.value + {name}) else None
  }

  function Missing<V>(d: Dict<V>, other: Dict<V>): seq<string> {
    if d == [] then []
    else Missing(d[..|d| - 1], other) + if Get(other, d[|d| - 1].name).None? then [d[|d| - 1].name] else []
  }

  function NewEntries(name: string, entries: seq<string>, known: seq<string>): seq<string> {
    if entries == [] then []
    else
      var last := entries[|entries| - 1];
      NewEntries(name, entries[..|entries| - 1], known) + if last in known then [] else [name + "::" + last]
  }

  function AddedEntries(current: Dict<seq<string>>, baseline: Dict<seq<string>>): seq<string> {
    if current == [] then []
    else
      var last := current[|current| - 1];
      AddedEntries(current[..|current| - 1], baseline)
      + match Get(baseline, last.name)
        case None => []
        case Some(known) => NewEntries(last.name, last.value, known)
  }

  function Prefixed(prefix: string, names: seq<string>): seq<string> {
    seq(|names|, i requires 0 <= i < |names| => prefix + names[i])
  }

  datatype Class = NoOp | Additive | Incompatible

  // suppressed is always empty; storageFamilies is sorted only when it is printed.
  datatype Report = Report(kind: Class, breaking: seq<string>, addedFunctions: seq<string>, addedTypes: seq<string>,
                           addedVariants: seq<string>, addedEvents: seq<string>, storageFamilies: set<string>)

  // ---------- scripts/preflight_upgrade.py ----------

  method DiffFunctions(baseline: Dict<string>, current: Dict<string>) returns (breaking: seq<string>)
    ensures breaking == RenderAll(Preflight, Collect(baseline, current, FunctionBreak))
  {
    breaking := [];
    for i := 0 to |baseline|
      invariant breaking == RenderAll(Preflight, Collect(baseline[..i], current, FunctionBreak))
    {
      var f := baseline[i];
      assert baseline[..i + 1][..i] == baseline[..i];
      RenderAppend(Preflight, Collect(baseline[..i], current, FunctionBreak), FunctionBreak(f, current));
      var sig := Get(current, f.name);
      if sig.None? {
        breaking := breaking + ["function `" + f.name + "` was removed from PromptHashTrait"];
      } else if sig.value != f.value {
        breaking := breaking + ["function `" + f.name + "` signature changed"];
      }
    }
    assert baseline[..|baseline|] == baseline;
  }

  method DiffErrors(baseline: Dict<string>, current: Dict<string>) returns (breaking: seq<string>)
    ensures breaking == RenderAll(Preflight, Collect(baseline, current, ErrorBreak))
  {
    breaking := [];
    for i := 0 to |baseline|
      invariant breaking == RenderAll(Preflight, Collect(baseline[..i], current, ErrorBreak))
    {
      var e := baseline[i];
      assert baseline[..i + 1][..i] == baseline[..i];
      RenderAppend(Preflight, Collect(baseline[..i], current, ErrorBreak), ErrorBreak(e, current));
      var code := Get(current, e.name);
      if code.None? {
        breaking := breaking + ["Error variant `" + e.name + "` (=" + e.value + ") was removed"];
      } else if code.value != e.value {
        breaking := breaking + ["Error variant `" + e.name + "` discriminant changed (" + e.value + " -> "
          + code.value + ")"];
      }
    }
    assert baseline[..|baseline|] == baseline;
  }

  method DiffEntries(name: string, entries: seq<string>, current: seq<string>) returns (breaking: seq<string>)
    ensures breaking == RenderAll(Preflight, EntryBreaks(name, entries, current))
  {
    breaking := [];
    for i := 0 to |entries|
      invariant breaking == RenderAll(Preflight, EntryBreaks(name, entries[..i], current))
    {
      assert entries[..i + 1][..i] == entries[..i];
      if entries[i] !in current {
        RenderAppend(Preflight, EntryBreaks(name, entries[..i], current), [EntryRemoved(name, entries[i])]);
        breaking := breaking + ["`" + name + "`: `" + entries[i] + "` was removed or changed shape"];
      }
    }
    assert entries[..|entries|] == entries;
  }

  method DiffTypes(baseline: Dict<seq<string>>, current: Dict<seq<string>>) returns (breaking: seq<string>)
    ensures breaking == RenderAll(Preflight, Collect(baseline, current, TypeBreak))
  {
    breaking := [];
    for i := 0 to |baseline|
      invariant breaking == RenderAll(Preflight, Collect(baseline[..i], current, TypeBreak))
    {
      var t := baseline[i];
      assert baseline[..i + 1][..i] == baseline[..i];
      RenderAppend(Preflight, Collect(baseline[..i], current, TypeBreak), TypeBreak(t, current));
      var currentEntries := Get(current, t.name);
      if currentEntries.None? {
        breaking := breaking + ["type `" + t.name + "` was removed"];
      } else {
        var entries := DiffEntries(t.name, t.value, currentEntries.value);
        breaking := breaking + entries;
      }
    }
    assert baseline[..|baseline|] == baseline;
  }

  method DiffEvents(baseline: Dict<seq<string>>, current: Dict<seq<string>>) returns (breaking: seq<string>)
    ensures breaking == RenderAll(Preflight, Collect(baseline, current, EventBreak))
  {
    breaking := [];
    for i := 0 to |baseline|
      invariant breaking == RenderAll(Preflight, Collect(baseline[..i], current, EventBreak))
    {
      var e := baseline[i];
      assert baseline[..i + 1][..i] == baseline[..i];
      RenderAppend(Preflight, Collect(baseline[..i], current, EventBreak), EventBreak(e, current));
      var fields := Get(current, e.name);
      if fields.None? {
        breaking := breaking + ["event `" + e.name + "` was removed"];
      } else if fields.value != e.value {
        breaking := breaking + ["event `" + e.name + "` field list changed"];
      }
    }
    assert baseline[..|baseline|] == baseline;
  }

  method DiffSpec(b: Spec, c: Spec) returns (breaking: seq<string>)
    ensures breaking == RenderAll(Preflight, Breaks(b, c))
  {
    var functions := DiffFunctions(b.functions, c.functions);
    var errors := DiffErrors(b.errors, c.errors);
    var types := DiffTypes(b.dataTypes, c.dataTypes);
    var events := DiffEvents(b.events, c.events);
    breaking := functions + errors + types + events;
  }

  // ---------- scripts/dry-run-migration.py ----------

  method ClassifyFunctions(baseline: Dict<string>, current: Dict<string>) returns (breaking: seq<string>)
    ensures breaking == RenderAll(DryRun, Collect(baseline, current, FunctionBreak))
  {
    breaking := [];
    for i := 0 to |baseline|
      invariant breaking == RenderAll(DryRun, Collect(baseline[..i], current, FunctionBreak))
    {
      var f := baseline[i];
      assert baseline[..i + 1][..i] == baseline[..i];
      RenderAppend(DryRun, Collect(baseline[..i], current, FunctionBreak), FunctionBreak(f, current));
      var sig := Get(current, f.name);
      if sig.None? {
        breaking := breaking + ["function `" + f.name + "` was removed from PromptHashTrait"];
      } else if sig.value != f.value {
        breaking := breaking + ["function `" + f.name + "` signature changed"];
      }
    }
    assert baseline[..|baseline|] == baseline;
  }

  method ClassifyErrors(baseline: Dict<string>, current: Dict<string>) returns (breaking: seq<string>)
    ensures breaking == RenderAll(DryRun, Collect(baseline, current, ErrorBreak))
  {
    breaking := [];
    for i := 0 to |baseline|
      invariant breaking == RenderAll(DryRun, Collect(baseline[..i], current, ErrorBreak))
    {
      var e := baseline[i];
      assert baseline[..i + 1][..i] == baseline[..i];
      RenderAppend(DryRun, Collect(baseline[..i], current, ErrorBreak), ErrorBreak(e, current));
      var code := Get(current, e.name);
      if code.None? {
        breaking := breaking + ["Error variant `" + e.name + "` (=" + e.value + ") was removed"];
      } else if code.value != e.value {
        breaking := breaking + ["Error variant `" + e.name + "` discriminant changed"];
      }
    }
    assert baseline[..|baseline|] == baseline;
  }

  method ClassifyEntries(name: string, entries: seq<string>, current: seq<string>) returns (breaking: seq<string>)
    ensures breaking == RenderAll(DryRun, EntryBreaks(name, entries, current))
  {
    breaking := [];
    for i := 0 to |entries|
      invariant breaking == RenderAll(DryRun, EntryBreaks(name, entries[..i], current))
    {
      assert entries[..i + 1][..i] == entries[..i];
      if entries[i] !in current {
        RenderAppend(DryRun, EntryBreaks(name, entries[..i], current), [EntryRemoved(name, entries[i])]);
        breaking := breaking + ["`" + name + "`: `" + entries[i] + "` was removed or changed shape"];
      }
    }
    assert entries[..|entries|] == entries;
  }

  method ClassifyTypes(baseline: Dict<seq<string>>, current: Dict<seq<string>>) returns (breaking: seq<string>)
    ensures breaking == RenderAll(DryRun, Collect(baseline, current, TypeBreak))
  {
    breaking := [];
    for i := 0 to |baseline|
      invariant breaking == RenderAll(DryRun, Collect(baseline[..i], current, TypeBreak))
    {
      var t := baseline[i];
      assert baseline[..i + 1][..i] == baseline[..i];
      RenderAppend(DryRun, Collect(baseline[..i], current, TypeBreak), TypeBreak(t, current));
      var currentEntries := Get(current, t.name);
      if currentEntries.None? {
        breaking := breaking + ["type `" + t.name + "` was removed"];
      } else {
        var entries := ClassifyEntries(t.name, t.value, currentEntries.value);
        breaking := breaking + entries;
      }
    }
    assert baseline[..|baseline|] == baseline;
  }

  method ClassifyEvents(baseline: Dict<seq<string>>, current: Dict<seq<string>>) returns (breaking: seq<string>)
    ensures breaking == RenderAll(DryRun, Collect(baseline, current, EventBreak))
  {
    breaking := [];
    for i := 0 to |baseline|
      invariant breaking == RenderAll(DryRun, Collect(baseline[..i], current, EventBreak))
    {
      var e := baseline[i];
      assert baseline[..i + 1][..i] == baseline[..i];
      RenderAppend(DryRun, Collect(baseline[..i], current, EventBreak), EventBreak(e, current));
      var fields := Get(current, e.name);
      if fields.None? {
        breaking := breaking + ["event `" + e.name + "` was removed"];
      } else if fields.value != e.value {
        breaking := breaking + ["event `" + e.name + "` field list changed"];
      }
    }
    assert baseline[..|baseline|] == baseline;
  }

  method ClassifyBreaking(b: Spec, c: Spec) returns (breaking: seq<string>)
    ensures breaking == RenderAll(DryRun, Breaks(b, c))
  {
    var functions := ClassifyFunctions(b.functions, c.functions);
    var errors := ClassifyErrors(b.errors, c.errors);
    var types := ClassifyTypes(b.dataTypes, c.dataTypes);
    var events := ClassifyEvents(b.events, c.events);
    breaking := functions + errors + types + events;
  }

  method CollectMissing<V>(d: Dict<V>, other: Dict<V>) returns (names: seq<string>)
    ensures names == Missing(d, other)
  {
    names := [];
    for i := 0 to |d|
      invariant names == Missing(d[..i], other)
    {
      assert d[..i + 1][..i] == d[..i];
      if Get(other, d[i].name).None? {
        names := names + [d[i].name];
      }
    }
    assert d[..|d|] == d;
  }

  method CollectAddedEntries(current: Dict<seq<string>>, baseline: Dict<seq<string>>) returns (added: seq<string>)
    ensures added == AddedEntries(current, baseline)
  {
    added := [];
    for i := 0 to |current|
      invariant added == AddedEntries(current[..i], baseline)
    {
      var t := current[i];
      assert current[..i + 1][..i] == current[..i];
      var known := Get(baseline, t.name);
      if known.Some? {
        for j := 0 to |t.value|
          invariant added == AddedEntries(current[..i], baseline) + NewEntries(t.name, t.value[..j], known.value)
        {
          assert t.value[..j + 1][..j] == t.value[..j];
          if t.value[j] !in known.value {
            added := added + [t.name + "::" + t.value[j]];
          }
        }
        assert t.value[..|t.value|] == t.value;
      }
    }
    assert current[..|current|] == current;
  }

  method CollectFamilies(changes: seq<string>) returns (families: Option<set<string>>)
    ensures families == ParseFamilies(changes)
  {
    var found: set<string> := {};
    for i := 0 to |changes|
      invariant ParseFamilies(changes[..i]) == Some(found)
    {
      assert changes[..i + 1][..i] == changes[..i];
      match ParseFamily(changes[i])
      case IndexError =>
        CrashStays(changes, i + 1);
        return None;
      case NoFamily =>
      case Family(name) => found := found + {name};
    }
    assert changes[..|changes|] == changes;
    families := Some(found);
  }

  lemma {:induction false} CrashStays(changes: seq<string>, i: nat)
    requires i <= |changes| && ParseFamilies(changes[..i]).None?
    ensures ParseFamilies(changes).None?
    decreases |changes| - i
  {
    if i < |changes| {
      assert changes[..i + 1][..i] == changes[..i];
      CrashStays(changes, i + 1);
    } else {
      assert changes[..i] == changes;
    }
  }

  // The report classify_change is to return, None when reading a family raises an IndexError.
  ghost predicate Classified(b: Spec, c: Spec, report: Option<Report>) {
    && (report.Some? <==> ParseFamilies(RenderAll(DryRun, Breaks(b, c))).Some?)
    && (report.Some? ==>
          var r := report.value;
          && r.breaking == RenderAll(DryRun, Breaks(b, c))
          && r.addedFunctions == Missing(c.functions, b.functions) && r.addedTypes == Missing(c.dataTypes, b.dataTypes)
          && r.addedVariants == Prefixed("Error::", Missing(c.errors, b.errors))
            + AddedEntries(c.dataTypes, b.dataTypes)
          && r.addedEvents == Missing(c.events, b.events)
          && r.storageFamilies == ParseFamilies(r.breaking).value
            + (set name | name in Missing(b.dataTypes, c.dataTypes))
          && r.kind == (if r.breaking != [] then Incompatible
                        else if r.addedFunctions + r.addedTypes + r.addedVariants + r.addedEvents != [] then Additive
                        else NoOp))
  }

  // classify_change reports a no-op: no break and nothing added.
  predicate NothingChanged(b: Spec, c: Spec) {
    && Breaks(b, c) == [] && Missing(c.functions, b.functions) == [] && Missing(c.dataTypes, b.dataTypes) == []
    && Prefixed("Error::", Missing(c.errors, b.errors)) + AddedEntries(c.dataTypes, b.dataTypes) == []
    && Missing(c.events, b.events) == []
  }

  lemma KindMeaning(b: Spec, c: Spec, r: Report)
    requires Classified(b, c, Some(r))
    ensures r.kind.Incompatible? <==> RenderAll(Preflight, Breaks(b, c)) != []
    ensures r.kind.NoOp? <==> NothingChanged(b, c)
  {
    assert |r.breaking| == |Breaks(b, c)|;
  }

  // classify_change
  method ClassifyChange(b: Spec, c: Spec) returns (report: Option<Report>)
    ensures Classified(b, c, report)
    ensures report.Some? ==>
              && (report.value.kind.Incompatible? <==> RenderAll(Preflight, Breaks(b, c)) != [])
              && (report.value.kind.NoOp? <==> NothingChanged(b, c))
  {
    var breaking := ClassifyBreaking(b, c);
    var addedFunctions := CollectMissing(c.functions, b.functions);
    var newErrors := CollectMissing(c.errors, b.errors);
    var addedTypes := CollectMissing(c.dataTypes, b.dataTypes);
    var addedEntries := CollectAddedEntries(c.dataTypes, b.dataTypes);
    var addedEvents := CollectMissing(c.events, b.events);
    var addedVariants := Prefixed("Error::", newErrors) + addedEntries;
    var families := CollectFamilies(breaking);
    if families.None? {
      return None;
    }
    var removedTypes := CollectMissing(b.dataTypes, c.dataTypes);
    var storageFamilies := families.value + set name | name in removedTypes;
    var kind := NoOp;
    if breaking != [] {
      kind := Incompatible;
    } else if addedFunctions != [] || addedTypes != [] || addedVariants != [] || addedEvents != [] {
      kind := Additive;
    }
    report := Some(Report(kind, breaking, addedFunctions, addedTypes, addedVariants, addedEvents, storageFamilies));
    KindMeaning(b, c, report.value);
  }
}
