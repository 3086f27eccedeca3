/** What the upgrade tools promise: they agree entry by entry, compatibility composes, and the storage families
    read back from the rendered text are the ones that were removed. */
module MigrationTheorems {
  import opened Options
  import opened Migration

  // ---------- compatibility ----------

  ghost predicate IsDict<V>(d: Dict<V>) {
    forall i, j :: 0 <= i < j < |d| ==> d[i].name != d[j].name
  }

  ghost predicate WellFormed(s: Spec) {
    IsDict(s.functions) && IsDict(s.errors) && IsDict(s.dataTypes) && IsDict(s.events)
  }

  ghost predicate Keeps<V>(b: Dict<V>, c: Dict<V>) {
    forall name :: Get(b, name).Some? ==> Get(c, name) == Get(b, name)
  }

  ghost predicate KeepsEntries(b: Dict<seq<string>>, c: Dict<seq<string>>) {
    forall name :: Get(b, name).Some? ==>
                     Get(c, name).Some? && forall e :: e in Get(b, name).value ==> e in Get(c, name).value
  }

  // Everything the baseline has, the current spec has unchanged; a data type may gain entries.
  ghost predicate Compatible(b: Spec, c: Spec) {
    Keeps(b.functions, c.functions) && Keeps(b.errors, c.errors) && KeepsEntries(b.dataTypes, c.dataTypes)
    && Keeps(b.events, c.events)
  }

  lemma {:induction false} GetFinds<V>(d: Dict<V>, name: string)
    ensures Get(d, name).Some? <==> exists i :: 0 <= i < |d| && d[i].name == name
    ensures Get(d, name).Some? ==> Entry.Entry(name, Get(d, name).value) in d
  {
    if d != [] {
      GetFinds(d[1..], name);
      assert d == [d[0]] + d[1..];
      if d[0].name != name && Get(d[1..], name).Some? {
        var i :| 0 <= i < |d[1..]| && d[1..][i].name == name;
        assert d[i + 1].name == name;
      }
    }
  }

  lemma {:induction false} GetUnique<V>(d: Dict<V>, i: nat)
    requires IsDict(d) && i < |d|
    ensures Get(d, d[i].name) == Some(d[i].value)
  {
    if i > 0 {
      assert d[0].name != d[i].name;
      GetUnique(d[1..], i - 1);
    }
  }

  lemma {:induction false} CollectEmpty<V>(d: Dict<V>, current: Dict<V>, breaks: (Entry<V>, Dict<V>) -> seq<Break>)
    ensures Collect(d, current, breaks) == [] <==> forall i :: 0 <= i < |d| ==> breaks(d[i], current) == []
  {
    if d != [] {
      CollectEmpty(d[..|d| - 1], current, breaks);
    }
  }

  // No break in a section, in terms of lookups.
  lemma SectionEmpty<V>(d: Dict<V>, current: Dict<V>, breaks: (Entry<V>, Dict<V>) -> seq<Break>)
    requires IsDict(d)
    ensures Collect(d, current, breaks) == [] ==>
              forall name :: Get(d, name).Some? ==> breaks(Entry.Entry(name, Get(d, name).value), current) == []
    ensures (forall name :: Get(d, name).Some? ==> breaks(Entry.Entry(name, Get(d, name).value), current) == []) ==>
              Collect(d, current, breaks) == []
  {
    CollectEmpty(d, current, breaks);
    if Collect(d, current, breaks) == [] {
      forall name | Get(d, name).Some?
        ensures breaks(Entry.Entry(name, Get(d, name).value), current) == []
      {
        GetFinds(d, name);
        var i :| 0 <= i < |d| && d[i] == Entry.Entry(name, Get(d, name).value);
      }
    }
    if forall name :: Get(d, name).Some? ==> breaks(Entry.Entry(name, Get(d, name).value), current) == [] {
      forall i | 0 <= i < |d|
        ensures breaks(d[i], current) == []
      {
        GetUnique(d, i);
        assert Get(d, d[i].name).Some?;
      }
    }
  }

  lemma {:induction false} EntriesEmpty(name: string, entries: seq<string>, current: seq<string>)
    ensures EntryBreaks(name, entries, current) == [] <==> forall e :: e in entries ==> e in current
  {
    if entries != [] {
      var n := |entries| - 1;
      EntriesEmpty(name, entries[..n], current);
      assert entries == entries[..n] + [entries[n]];
    }
  }

  // The tools find no breaking change exactly when the upgrade is compatible.
  lemma NoBreakIsCompatible(b: Spec, c: Spec)
    requires WellFormed(b)
    ensures Breaks(b, c) == [] <==> Compatible(b, c)
  {
    FunctionsKept(b.functions, c.functions);
    ErrorsKept(b.errors, c.errors);
    TypesKept(b.dataTypes, c.dataTypes);
    EventsKept(b.events, c.events);
  }

  lemma FunctionsKept(b: Dict<string>, c: Dict<string>)
    requires IsDict(b)
    ensures Collect(b, c, FunctionBreak) == [] <==> Keeps(b, c)
  {
    SectionEmpty(b, c, FunctionBreak);
    if Collect(b, c, FunctionBreak) == [] {
      forall name | Get(b, name).Some?
        ensures Get(c, name) == Get(b, name)
      {
        assert FunctionBreak(Entry.Entry(name, Get(b, name).value), c) == [];
      }
    }
    if Keeps(b, c) {
      assert forall name :: Get(b, name).Some? ==> FunctionBreak(Entry.Entry(name, Get(b, name).value), c) == [];
    }
  }

  lemma ErrorsKept(b: Dict<string>, c: Dict<string>)
    requires IsDict(b)
    ensures Collect(b, c, ErrorBreak) == [] <==> Keeps(b, c)
  {
    SectionEmpty(b, c, ErrorBreak);
    if Collect(b, c, ErrorBreak) == [] {
      forall name | Get(b, name).Some?
        ensures Get(c, name) == Get(b, name)
      {
        assert ErrorBreak(Entry.Entry(name, Get(b, name).value), c) == [];
      }
    }
    if Keeps(b, c) {
      assert forall name :: Get(b, name).Some? ==> ErrorBreak(Entry.Entry(name, Get(b, name).value), c) == [];
    }
  }

  lemma EventsKept(b: Dict<seq<string>>, c: Dict<seq<string>>)
    requires IsDict(b)
    ensures Collect(b, c, EventBreak) == [] <==> Keeps(b, c)
  {
    SectionEmpty(b, c, EventBreak);
    if Collect(b, c, EventBreak) == [] {
      forall name | Get(b, name).Some?
        ensures Get(c, name) == Get(b, name)
      {
        assert EventBreak(Entry.Entry(name, Get(b, name).value), c) == [];
      }
    }
    if Keeps(b, c) {
      assert forall name :: Get(b, name).Some? ==> EventBreak(Entry.Entry(name, Get(b, name).value), c) == [];
    }
  }

  lemma TypesKept(b: Dict<seq<string>>, c: Dict<seq<string>>)
    requires IsDict(b)
    ensures Collect(b, c, TypeBreak) == [] <==> KeepsEntries(b, c)
  {
    SectionEmpty(b, c, TypeBreak);
    forall name | Get(b, name).Some? && Get(c, name).Some?
      ensures EntryBreaks(name, Get(b, name).value, Get(c, name).value) == [] <==>
              forall e :: e in Get(b, name).value ==> e in Get(c, name).value
    {
      EntriesEmpty(name, Get(b, name).value, Get(c, name).value);
    }
    if Collect(b, c, TypeBreak) == [] {
      forall name | Get(b, name).Some?
        ensures Get(c, name).Some? && forall e :: e in Get(b, name).value ==> e in Get(c, name).value
      {
        assert TypeBreak(Entry.Entry(name, Get(b, name).value), c) == [];
      }
    }
    if KeepsEntries(b, c) {
      forall name | Get(b, name).Some?
        ensures TypeBreak(Entry.Entry(name, Get(b, name).value), c) == []
      {
      }
    }
  }

  lemma NoBreakIsReflexive(s: Spec)
    requires WellFormed(s)
    ensures Breaks(s, s) == []
  {
    NoBreakIsCompatible(s, s);
  }

  lemma NoBreakIsTransitive(a: Spec, b: Spec, c: Spec)
    requires WellFormed(a) && WellFormed(b) && Breaks(a, b) == [] && Breaks(b, c) == []
    ensures Breaks(a, c) == []
  {
    NoBreakIsCompatible(a, b);
    NoBreakIsCompatible(b, c);
    NoBreakIsCompatible(a, c);
  }

  // A chain of compatible upgrades is compatible end to end.
  lemma {:induction false} ChainIsCompatible(specs: seq<Spec>)
    requires |specs| > 0 && forall s :: s in specs ==> WellFormed(s)
    requires forall i :: 0 <= i < |specs| - 1 ==> Breaks(specs[i], specs[i + 1]) == []
    ensures Breaks(specs[0], specs[|specs| - 1]) == []
  {
    var n := |specs| - 1;
    if n == 0 {
      NoBreakIsReflexive(specs[0]);
    } else {
      ChainIsCompatible(specs[..n]);
      assert Breaks(specs[n - 1], specs[n]) == [];
      NoBreakIsTransitive(specs[0], specs[n - 1], specs[n]);
    }
  }

  // ---------- no-op ----------

  // Equal up to the order of definitions, and the order and repetition of data-type entries.
  ghost predicate Equivalent(b: Spec, c: Spec) {
    Compatible(b, c) && Compatible(c, b)
  }

  lemma {:induction false} MissingEmpty<V>(d: Dict<V>, other: Dict<V>)
    ensures Missing(d, other) == [] <==> forall i :: 0 <= i < |d| ==> Get(other, d[i].name).Some?
  {
    if d != [] {
      MissingEmpty(d[..|d| - 1], other);
    }
  }

  lemma MissingNone<V>(d: Dict<V>, other: Dict<V>)
    ensures Missing(d, other) == [] <==> forall name :: Get(d, name).Some? ==> Get(other, name).Some?
  {
    MissingEmpty(d, other);
    forall name
      ensures Get(d, name).Some? <==> exists i :: 0 <= i < |d| && d[i].name == name
    {
      GetFinds(d, name);
    }
    assert forall i :: 0 <= i < |d| ==> Get(d, d[i].name).Some?;
  }

  lemma {:induction false} NewEntriesEmpty(name: string, entries: seq<string>, known: seq<string>)
    ensures NewEntries(name, entries, known) == [] <==> forall e :: e in entries ==> e in known
  {
    if entries != [] {
      var n := |entries| - 1;
      NewEntriesEmpty(name, entries[..n], known);
      assert entries == entries[..n] + [entries[n]];
    }
  }

  lemma {:induction false} AddedEntriesEmpty(current: Dict<seq<string>>, baseline: Dict<seq<string>>)
    ensures AddedEntries(current, baseline) == [] <==>
            forall i :: 0 <= i < |current| && Get(baseline, current[i].name).Some? ==>
                          forall e :: e in current[i].value ==> e in Get(baseline, current[i].name).value
  {
    if current != [] {
      var n := |current| - 1;
      AddedEntriesEmpty(current[..n], baseline);
      if Get(baseline, current[n].name).Some? {
        NewEntriesEmpty(current[n].name, current[n].value, Get(baseline, current[n].name).value);
      }
    }
  }

  lemma AddedEntriesNone(current: Dict<seq<string>>, baseline: Dict<seq<string>>)
    requires IsDict(current)
    ensures AddedEntries(current, baseline) == [] <==>
            forall name :: Get(current, name).Some? && Get(baseline, name).Some? ==>
                             forall e :: e in Get(current, name).value ==> e in Get(baseline, name).value
  {
    AddedEntriesEmpty(current, baseline);
    forall i | 0 <= i < |current|
      ensures Get(current, current[i].name) == Some(current[i].value)
    {
      GetUnique(current, i);
    }
    forall name | Get(current, name).Some?
      ensures exists i :: 0 <= i < |current| && current[i] == Entry.Entry(name, Get(current, name).value)
    {
      GetFinds(current, name);
    }
  }

  lemma KeepsBack<V>(b: Dict<V>, c: Dict<V>)
    requires Keeps(b, c)
    ensures Missing(c, b) == [] ==> Keeps(c, b)
    ensures Keeps(c, b) ==> Missing(c, b) == []
  {
    MissingNone(c, b);
  }

  lemma EntriesBack(b: Dict<seq<string>>, c: Dict<seq<string>>)
    requires IsDict(c) && KeepsEntries(b, c)
    ensures Missing(c, b) == [] && AddedEntries(c, b) == [] ==> KeepsEntries(c, b)
    ensures KeepsEntries(c, b) ==> Missing(c, b) == [] && AddedEntries(c, b) == []
  {
    MissingNone(c, b);
    AddedEntriesNone(c, b);
  }

  lemma NothingChangedIsEquivalent(b: Spec, c: Spec)
    requires WellFormed(b) && WellFormed(c)
    ensures NothingChanged(b, c) <==> Equivalent(b, c)
  {
    NoBreakIsCompatible(b, c);
    if Compatible(b, c) {
      KeepsBack(b.functions, c.functions);
      KeepsBack(b.errors, c.errors);
      KeepsBack(b.events, c.events);
      EntriesBack(b.dataTypes, c.dataTypes);
    }
  }

  // The class reported is no-op exactly when the two specs are equivalent, incompatible exactly when the current
  // spec breaks the baseline, and additive otherwise.
  lemma ClassMeaning(b: Spec, c: Spec, r: Report)
    requires WellFormed(b) && WellFormed(c) && Classified(b, c, Some(r))
    ensures r.kind.NoOp? <==> Equivalent(b, c)
    ensures r.kind.Incompatible? <==> !Compatible(b, c)
    ensures r.kind.Additive? <==> Compatible(b, c) && !Compatible(c, b)
  {
    KindMeaning(b, c, r);
    NothingChangedIsEquivalent(b, c);
    NoBreakIsCompatible(b, c);
  }

  // ---------- storage families ----------

  predicate Free(s: string, c: char) {
    c !in s
  }

  predicate Plain(s: string) {
    Free(s, '`') && Free(s, ':')
  }

  // Names free of backticks and colons; error codes and data-type entries free of backticks.
  predicate PlainBreak(b: Break) {
    Plain(b.name) && (b.ErrorRemoved? ==> Free(b.code, '`')) && (b.EntryRemoved? ==> Free(b.entry, '`'))
  }

  function JoinTicks(parts: seq<string>): string
    requires |parts| > 0
  {
    if |parts| == 1 then parts[0] else parts[0] + ("`" + JoinTicks(parts[1..]))
  }

  lemma {:induction false} SplitAtTick(a: string, rest: string)
    requires Free(a, '`')
    ensures SplitTicks(a + ("`" + rest)) == [a] + SplitTicks(rest)
  {
    if a == "" {
      assert a + ("`" + rest) == "`" + rest;
      assert ("`" + rest)[1..] == rest;
    } else {
      assert (a + ("`" + rest))[1..] == a[1..] + ("`" + rest);
      assert (a + ("`" + rest))[0] == a[0] && a[0] in a;
      SplitAtTick(a[1..], rest);
      assert [a[0]] + a[1..] == a;
    }
  }

  lemma {:induction false} SplitNoTick(a: string)
    requires Free(a, '`')
    ensures SplitTicks(a) == [a]
  {
    if a != "" {
      assert a[0] in a;
      SplitNoTick(a[1..]);
      assert [a[0]] + a[1..] == a;
    }
  }

  // Splitting undoes joining.
  lemma {:induction false} SplitJoined(parts: seq<string>)
    requires |parts| > 0 && forall p :: p in parts ==> Free(p, '`')
    ensures SplitTicks(JoinTicks(parts)) == parts
  {
    assert parts[0] in parts;
    if |parts| == 1 {
      SplitNoTick(parts[0]);
    } else {
      SplitJoined(parts[1..]);
      SplitAtTick(parts[0], JoinTicks(parts[1..]));
      assert parts == [parts[0]] + parts[1..];
    }
  }

  lemma JoinThree(a: string, b: string, c: string)
    ensures JoinTicks([a, b, c]) == a + ("`" + (b + ("`" + c)))
  {
    assert [a, b, c][1..] == [b, c] && [b, c][1..] == [c];
    assert JoinTicks([b, c]) == b + ("`" + c);
  }

  lemma JoinFive(a: string, b: string, c: string, d: string, e: string)
    ensures JoinTicks([a, b, c, d, e]) == a + ("`" + (b + ("`" + (c + ("`" + (d + ("`" + e)))))))
  {
    assert [a, b, c, d, e][1..] == [b, c, d, e] && [b, c, d, e][1..] == [c, d, e];
    JoinThree(c, d, e);
  }

  lemma Assoc(a: string, b: string, c: string)
    ensures a + b + c == a + (b + c)
  {
  }

  lemma RegroupEntry(t: string, n: string, colon: string, e: string, tail: string)
    ensures t + n + (t + (colon + t)) + e + (t + tail) == t + (n + (t + (colon + (t + (e + (t + tail))))))
  {
    var end := e + (t + tail);
    Assoc(t + n + (t + (colon + t)), e, t + tail);
    Assoc(t + n, t + (colon + t), end);
    Assoc(t, n, t + (colon + t) + end);
    Assoc(t, colon + t, end);
    Assoc(colon, t, end);
  }

  lemma RegroupError(variant: string, t: string, n: string, open: string, code: string, close: string)
    ensures (variant + t) + n + (t + open) + code + close == variant + (t + (n + (t + (open + (code + close)))))
  {
    Assoc((variant + t) + n + (t + open), code, close);
    Assoc((variant + t) + n, t + open, code + close);
    Assoc(variant + t, n, t + open + (code + close));
    Assoc(variant, t, n + (t + open + (code + close)));
    Assoc(t, open, code + close);
  }

  // Text without a backtick comes before "` was".
  lemma {:induction false} BeforeWasOver(a: string, rest: string)
    requires Free(a, '`')
    ensures BeforeWas(a + rest) == a + BeforeWas(rest)
  {
    if a == "" {
      assert a + rest == rest;
    } else {
      assert (a + rest)[1..] == a[1..] + rest;
      assert (a + rest)[0] == a[0] && a[0] in a;
      BeforeWasOver(a[1..], rest);
    }
  }

  lemma BeforeWasTick(rest: string)
    ensures BeforeWas("`" + rest) == if " was" <= rest then "" else "`" + BeforeWas(rest)
  {
    assert ("`" + rest)[1..] == rest;
    assert "` was" == "`" + " was";
  }

  lemma {:induction false} BeforeWasIsPart(s: string)
    ensures forall c :: c in BeforeWas(s) ==> c in s
  {
    if s != "" {
      BeforeWasIsPart(s[1..]);
    }
  }

  lemma NoColonNoFamily(s: string)
    requires Free(s, ':')
    ensures ParseFamily(s) == NoFamily
  {
    BeforeWasIsPart(s);
  }

  lemma WasAhead(name: string, rest: string)
    ensures " was" <= name + ("`" + rest) <==> " was" <= name
  {
    var s := name + ("`" + rest);
    if |name| < 4 {
      assert s[|name|] == '`';
      assert '`' !in " was";
    } else {
      assert s[..4] == name[..4];
    }
  }

  // A text with one quoted name in it.
  lemma BeforeWasQuoted(a: string, name: string, rest: string)
    requires Free(a, '`') && Free(name, '`')
    ensures var before := BeforeWas(a + ("`" + (name + ("`" + rest))));
            if " was" <= name then before == a
            else before == a + ("`" + (name + if " was" <= rest then "" else "`" + BeforeWas(rest)))
  {
    var inner := name + ("`" + rest);
    BeforeWasOver(a, "`" + inner);
    BeforeWasTick(inner);
    WasAhead(name, rest);
    BeforeWasOver(name, "`" + rest);
    BeforeWasTick(rest);
  }

  const ENTRY_TAIL := " was removed or changed shape"

  lemma EntryText(name: string, entry: string)
    ensures Render(DryRun, EntryRemoved(name, entry)) ==
            "`" + (name + ("`" + (": " + ("`" + (entry + ("`" + ENTRY_TAIL))))))
  {
    RegroupEntry("`", name, ": ", entry, ENTRY_TAIL);
    assert "`: `" == "`" + (": " + "`");
    assert "` was removed or changed shape" == "`" + ENTRY_TAIL;
  }

  // The text of a removed entry splits into the type's name and the entry.
  lemma EntryParts(name: string, entry: string)
    requires Free(name, '`') && Free(entry, '`')
    ensures SplitTicks(Render(DryRun, EntryRemoved(name, entry))) == ["", name, ": ", entry, ENTRY_TAIL]
  {
    EntryText(name, entry);
    JoinFive("", name, ": ", entry, ENTRY_TAIL);
    SplitJoined(["", name, ": ", entry, ENTRY_TAIL]);
    var text := Render(DryRun, EntryRemoved(name, entry));
    assert "" + text == text;
  }

  lemma ColonIsAhead(name: string, entry: string)
    requires name == "DataKey" && Free(entry, '`')
    ensures ':' in BeforeWas(Render(DryRun, EntryRemoved(name, entry)))
    ensures '`' in Render(DryRun, EntryRemoved(name, entry))
  {
    EntryText(name, entry);
    var tail := "`" + (entry + ("`" + ENTRY_TAIL));
    var text := "`" + (name + ("`" + (": " + tail)));
    assert name[0] == 'D' && (": " + tail)[0] == ':' && '`' !in name;
    BeforeWasQuoted("", name, ": " + tail);
    BeforeWasOver(": ", tail);
    assert "" + text == text && ':' in ": ";
  }

  lemma EntryFamily(name: string, entry: string)
    requires Plain(name) && Free(entry, '`')
    ensures ParseFamily(Render(DryRun, EntryRemoved(name, entry))) ==
            (if name == "DataKey" then Family(BeforeParen(entry)) else NoFamily)
  {
    EntryParts(name, entry);
    if name == "DataKey" {
      ColonIsAhead(name, entry);
    }
  }

  const ERROR_HEAD := "Error variant "
  const ERROR_TAIL := ") was removed"

  lemma ErrorText(name: string, code: string)
    ensures Render(DryRun, ErrorRemoved(name, code)) ==
            ERROR_HEAD + ("`" + (name + ("`" + (" (=" + (code + ERROR_TAIL)))))
  {
    RegroupError(ERROR_HEAD, "`", name, " (=", code, ERROR_TAIL);
    assert "Error variant `" == ERROR_HEAD + "`";
    assert "` (=" == "`" + " (=";
  }

  lemma ErrorParts(name: string, code: string)
    requires Free(name, '`') && Free(code, '`')
    ensures SplitTicks(Render(DryRun, ErrorRemoved(name, code))) == [ERROR_HEAD, name, " (=" + (code + ERROR_TAIL)]
  {
    ErrorText(name, code);
    var rest := " (=" + (code + ERROR_TAIL);
    JoinThree(ERROR_HEAD, name, rest);
    assert Free(rest, '`');
    SplitJoined([ERROR_HEAD, name, rest]);
  }

  lemma ColonAfterQuote(head: string, name: string, rest: string)
    requires Plain(head) && Plain(name) && Free(rest, '`') && !Free(rest, ':') && !(" was" <= rest)
    ensures ':' in BeforeWas(head + ("`" + (name + ("`" + rest)))) <==> !(" was" <= name)
  {
    BeforeWasQuoted(head, name, rest);
    BeforeWasOver(rest, "");
    assert rest + "" == rest;
  }

  lemma ColonInCode(name: string, code: string)
    requires Plain(name) && Free(code, '`') && !Free(code, ':')
    ensures ':' in BeforeWas(Render(DryRun, ErrorRemoved(name, code))) <==> !(" was" <= name)
  {
    var rest := " (=" + (code + ERROR_TAIL);
    ErrorText(name, code);
    assert rest[1] == '(' && ':' in rest;
    ColonAfterQuote(ERROR_HEAD, name, rest);
  }

  // A removed error whose code has a colon looks like a removed entry, has too few backticks for one, and stops
  // the tool; unless the name itself begins with " was", which hides the code.
  lemma ErrorFamily(name: string, code: string)
    requires Plain(name) && Free(code, '`')
    ensures ParseFamily(Render(DryRun, ErrorRemoved(name, code))) ==
            (if Free(code, ':') || " was" <= name then NoFamily else IndexError)
  {
    if Free(code, ':') {
      NoColonNoFamily(Render(DryRun, ErrorRemoved(name, code)));
    } else {
      ErrorParts(name, code);
      ErrorText(name, code);
      ColonInCode(name, code);
    }
  }

  lemma NoColonAround(a: string, name: string, c: string)
    requires Free(a, ':') && Free(name, ':') && Free(c, ':')
    ensures ParseFamily(a + name + c) == NoFamily
  {
    NoColonNoFamily(a + name + c);
  }

  lemma OtherFamily(b: Break)
    requires PlainBreak(b) && !b.EntryRemoved? && !b.ErrorRemoved?
    ensures ParseFamily(Render(DryRun, b)) == NoFamily
  {
    match b
    case FunctionRemoved(name) => NoColonAround("function `", name, "` was removed from PromptHashTrait");
    case SignatureChanged(name) => NoColonAround("function `", name, "` signature changed");
    case DiscriminantChanged(name, _, _) => NoColonAround("Error variant `", name, "` discriminant changed");
    case TypeRemoved(name) => NoColonAround("type `", name, "` was removed");
    case EventRemoved(name) => NoColonAround("event `", name, "` was removed");
    case FieldsChanged(name) => NoColonAround("event `", name, "` field list changed");
  }

  predicate Stops(b: Break) {
    b.ErrorRemoved? && !Free(b.code, ':') && !(" was" <= b.name)
  }

  function Families(breaks: seq<Break>): set<string> {
    set b | b in breaks && b.EntryRemoved? && b.name == "DataKey" :: BeforeParen(b.entry)
  }

  lemma FamiliesGrow(breaks: seq<Break>, last: Break)
    ensures Families(breaks + [last]) ==
            if last.EntryRemoved? && last.name == "DataKey" then Families(breaks) + {BeforeParen(last.entry)}
            else Families(breaks)
  {
    forall b | b in breaks
      ensures b in breaks + [last]
    {
    }
    assert last in breaks + [last];
  }

  lemma FamilyOf(b: Break)
    requires PlainBreak(b)
    ensures ParseFamily(Render(DryRun, b)) ==
            if Stops(b) then IndexError
            else if b.EntryRemoved? && b.name == "DataKey" then Family(BeforeParen(b.entry))
            else NoFamily
  {
    match b
    case EntryRemoved(name, entry) => EntryFamily(name, entry);
    case ErrorRemoved(name, code) => ErrorFamily(name, code);
    case _ => OtherFamily(b);
  }

  lemma FamiliesStep(texts: seq<string>, text: string)
    ensures ParseFamilies(texts + [text]) ==
            match ParseFamily(text)
            case IndexError => None
            case NoFamily => ParseFamilies(texts)
            case Family(name) => (match ParseFamilies(texts) case None => None case Some(s) => Some(s + {name}))
  {
    assert (texts + [text])[..|texts|] == texts;
  }

  // Reading the texts back recovers exactly the removed DataKey families, or stops at an error code with a colon.
  lemma {:induction false} FamiliesReadBack(breaks: seq<Break>)
    requires forall b :: b in breaks ==> PlainBreak(b)
    ensures (exists b :: b in breaks && Stops(b)) ==> ParseFamilies(RenderAll(DryRun, breaks)) == None
    ensures (forall b :: b in breaks ==> !Stops(b)) ==>
              ParseFamilies(RenderAll(DryRun, breaks)) == Some(Families(breaks))
  {
    if breaks == [] {
      assert Families([]) == {};
    } else {
      var n := |breaks| - 1;
      var front, last := breaks[..n], breaks[n];
      assert breaks == front + [last];
      FamiliesReadBack(front);
      FamilyOf(last);
      RenderAppend(DryRun, front, [last]);
      assert RenderAll(DryRun, [last]) == [Render(DryRun, last)];
      FamiliesStep(RenderAll(DryRun, front), Render(DryRun, last));
      FamiliesGrow(front, last);
    }
  }

  lemma {:induction false} CollectHas<V>(d: Dict<V>, current: Dict<V>, breaks: (Entry<V>, Dict<V>) -> seq<Break>,
        b: Break)
    ensures b in Collect(d, current, breaks) <==> exists i :: 0 <= i < |d| && b in breaks(d[i], current)
  {
    if d != [] {
      var n := |d| - 1;
      CollectHas(d[..n], current, breaks, b);
      assert forall i :: 0 <= i < n ==> d[..n][i] == d[i];
    }
  }

  lemma {:induction false} EntryBreaksHave(name: string, entries: seq<string>, current: seq<string>, b: Break)
    ensures b in EntryBreaks(name, entries, current) <==>
            b.EntryRemoved? && b.name == name && b.entry in entries && b.entry !in current
  {
    if entries != [] {
      var n := |entries| - 1;
      EntryBreaksHave(name, entries[..n], current, b);
      assert entries == entries[..n] + [entries[n]];
    }
  }

  // Names free of backticks and colons; error codes and data-type entries free of backticks.
  ghost predicate PlainSpec(s: Spec) {
    && (forall e :: e in s.functions ==> Plain(e.name)) && (forall e :: e in s.events ==> Plain(e.name))
    && (forall e :: e in s.errors ==> Plain(e.name) && Free(e.value, '`'))
    && (forall t :: t in s.dataTypes ==> Plain(t.name) && forall e :: e in t.value ==> Free(e, '`'))
  }

  lemma FunctionOrigin(d: Dict<string>, c: Dict<string>, x: Break)
    requires x in Collect(d, c, FunctionBreak)
    ensures (x.FunctionRemoved? || x.SignatureChanged?) && exists e :: e in d && e.name == x.name
  {
    CollectHas(d, c, FunctionBreak, x);
    var i :| 0 <= i < |d| && x in FunctionBreak(d[i], c);
    assert d[i] in d;
  }

  lemma ErrorOrigin(d: Dict<string>, c: Dict<string>, x: Break)
    ensures x in Collect(d, c, ErrorBreak) ==>
              (x.ErrorRemoved? || x.DiscriminantChanged?) && exists e :: e in d && e.name == x.name
    ensures x.ErrorRemoved? ==>
              (x in Collect(d, c, ErrorBreak) <==> Entry.Entry(x.name, x.code) in d && Get(c, x.name).None?)
  {
    CollectHas(d, c, ErrorBreak, x);
    if x in Collect(d, c, ErrorBreak) {
      var i :| 0 <= i < |d| && x in ErrorBreak(d[i], c);
      assert d[i] in d && x.name == d[i].name;
      assert x.ErrorRemoved? ==> d[i] == Entry.Entry(x.name, x.code);
    }
  }

  lemma TypeOrigin(d: Dict<seq<string>>, c: Dict<seq<string>>, x: Break)
    ensures x in Collect(d, c, TypeBreak) ==>
              (x.TypeRemoved? || x.EntryRemoved?) && exists t :: t in d && t.name == x.name
    ensures x.EntryRemoved? ==>
              (x in Collect(d, c, TypeBreak) <==>
               && (exists t :: t in d && t.name == x.name && x.entry in t.value)
               && Get(c, x.name).Some? && x.entry !in Get(c, x.name).value)
  {
    CollectHas(d, c, TypeBreak, x);
    forall i | 0 <= i < |d| && Get(c, d[i].name).Some?
      ensures x in TypeBreak(d[i], c) <==>
              x.EntryRemoved? && x.name == d[i].name && x.entry in d[i].value && x.entry !in Get(c, d[i].name).value
    {
      EntryBreaksHave(d[i].name, d[i].value, Get(c, d[i].name).value, x);
    }
    if x in Collect(d, c, TypeBreak) {
      var i :| 0 <= i < |d| && x in TypeBreak(d[i], c);
      assert d[i] in d && x.name == d[i].name;
    } else if x.EntryRemoved? {
      forall t | t in d && t.name == x.name && x.entry in t.value
        ensures Get(c, x.name).None? || x.entry in Get(c, x.name).value
      {
        var i :| 0 <= i < |d| && d[i] == t;
        assert x !in TypeBreak(d[i], c);
      }
    }
  }

  lemma EventOrigin(d: Dict<seq<string>>, c: Dict<seq<string>>, x: Break)
    requires x in Collect(d, c, EventBreak)
    ensures (x.EventRemoved? || x.FieldsChanged?) && exists e :: e in d && e.name == x.name
  {
    CollectHas(d, c, EventBreak, x);
    var i :| 0 <= i < |d| && x in EventBreak(d[i], c);
    assert d[i] in d;
  }

  lemma InBreaks(b: Spec, c: Spec, x: Break)
    ensures x in Breaks(b, c) <==>
            || x in Collect(b.functions, c.functions, FunctionBreak) || x in Collect(b.errors, c.errors, ErrorBreak)
            || x in Collect(b.dataTypes, c.dataTypes, TypeBreak) || x in Collect(b.events, c.events, EventBreak)
  {
  }

  lemma PlainBreaks(b: Spec, c: Spec, x: Break)
    requires PlainSpec(b) && x in Breaks(b, c)
    ensures PlainBreak(x)
  {
    InBreaks(b, c, x);
    ErrorOrigin(b.errors, c.errors, x);
    TypeOrigin(b.dataTypes, c.dataTypes, x);
    if x in Collect(b.functions, c.functions, FunctionBreak) {
      FunctionOrigin(b.functions, c.functions, x);
    }
    if x in Collect(b.events, c.events, EventBreak) {
      EventOrigin(b.events, c.events, x);
    }
  }

  lemma NotElsewhere(b: Spec, c: Spec, x: Break)
    requires x.ErrorRemoved? || x.EntryRemoved?
    ensures x !in Collect(b.functions, c.functions, FunctionBreak) && x !in Collect(b.events, c.events, EventBreak)
    ensures x.ErrorRemoved? ==> x !in Collect(b.dataTypes, c.dataTypes, TypeBreak)
    ensures x.EntryRemoved? ==> x !in Collect(b.errors, c.errors, ErrorBreak)
  {
    if x in Collect(b.functions, c.functions, FunctionBreak) {
      FunctionOrigin(b.functions, c.functions, x);
    }
    if x in Collect(b.events, c.events, EventBreak) {
      EventOrigin(b.events, c.events, x);
    }
    ErrorOrigin(b.errors, c.errors, x);
    TypeOrigin(b.dataTypes, c.dataTypes, x);
  }

  // The entries of the baseline's DataKey that are gone from the current one.
  function GoneKeys(b: Spec, c: Spec): set<string> {
    var was, now := Get(b.dataTypes, "DataKey"), Get(c.dataTypes, "DataKey");
    if was.None? || now.None? then {} else set e | e in was.value && e !in now.value
  }

  ghost predicate StopsOnError(b: Spec, c: Spec) {
    exists e :: e in b.errors && Get(c.errors, e.name).None? && !Free(e.value, ':') && !(" was" <= e.name)
  }

  lemma FamiliesAreGoneKeys(b: Spec, c: Spec)
    requires WellFormed(b)
    ensures Families(Breaks(b, c)) == set e | e in GoneKeys(b, c) :: BeforeParen(e)
  {
    forall e: string
      ensures EntryRemoved("DataKey", e) in Breaks(b, c) <==> e in GoneKeys(b, c)
    {
      var x := EntryRemoved("DataKey", e);
      InBreaks(b, c, x);
      NotElsewhere(b, c, x);
      TypeOrigin(b.dataTypes, c.dataTypes, x);
      GetFinds(b.dataTypes, "DataKey");
      forall t | t in b.dataTypes && t.name == "DataKey"
        ensures Get(b.dataTypes, "DataKey") == Some(t.value)
      {
        var i :| 0 <= i < |b.dataTypes| && b.dataTypes[i] == t;
        GetUnique(b.dataTypes, i);
      }
    }
    forall f | f in Families(Breaks(b, c))
      ensures exists e :: e in GoneKeys(b, c) && f == BeforeParen(e)
    {
      var x :| x in Breaks(b, c) && x.EntryRemoved? && x.name == "DataKey" && f == BeforeParen(x.entry);
      assert x == EntryRemoved("DataKey", x.entry);
    }
    forall e | e in GoneKeys(b, c)
      ensures BeforeParen(e) in Families(Breaks(b, c))
    {
      assert EntryRemoved("DataKey", e) in Breaks(b, c);
    }
  }

  // What classify_change reads back from its own texts, in terms of the two specs.
  lemma StorageFamilies(b: Spec, c: Spec)
    requires WellFormed(b) && PlainSpec(b)
    ensures ParseFamilies(RenderAll(DryRun, Breaks(b, c))) ==
            if StopsOnError(b, c) then None else Some(set e | e in GoneKeys(b, c) :: BeforeParen(e))
  {
    forall x | x in Breaks(b, c)
      ensures PlainBreak(x)
    {
      PlainBreaks(b, c, x);
    }
    FamiliesReadBack(Breaks(b, c));
    FamiliesAreGoneKeys(b, c);
    forall x: Break | Stops(x)
      ensures x in Breaks(b, c) <==> Entry.Entry(x.name, x.code) in b.errors && Get(c.errors, x.name).None?
    {
      InBreaks(b, c, x);
      NotElsewhere(b, c, x);
      ErrorOrigin(b.errors, c.errors, x);
    }
    if StopsOnError(b, c) {
      var e :| e in b.errors && Get(c.errors, e.name).None? && !Free(e.value, ':') && !(" was" <= e.name);
      assert Stops(ErrorRemoved(e.name, e.value));
      assert ErrorRemoved(e.name, e.value) in Breaks(b, c);
    }
  }

  // ---------- the two tools together ----------

  lemma Wording(x: Break)
    ensures Render(DryRun, x) <= Render(Preflight, x)
    ensures !x.DiscriminantChanged? ==> Render(DryRun, x) == Render(Preflight, x)
  {
  }

  // preflight is what diff_spec returns and report what classify_change does, None when it raises an IndexError.
  // Where there is a report, its class is incompatible exactly when preflight lists a break, and the two lists
  // have the same changes in the same order, worded alike but for discriminants. Where there is none, preflight
  // lists a break all the same.
  lemma ToolsAgree(b: Spec, c: Spec, preflight: seq<string>, report: Option<Report>)
    requires preflight == RenderAll(Preflight, Breaks(b, c)) && Classified(b, c, report)
    ensures report.Some? ==> (report.value.kind.Incompatible? <==> preflight != [])
    ensures report.None? ==> preflight != []
    ensures report.Some? ==> SameChanges(Breaks(b, c), report.value.breaking, preflight)
  {
    var breaks := Breaks(b, c);
    if report.Some? {
      KindMeaning(b, c, report.value);
      forall i | 0 <= i < |breaks|
        ensures RenderAll(DryRun, breaks)[i] <= RenderAll(Preflight, breaks)[i]
        ensures breaks[i].DiscriminantChanged? || RenderAll(DryRun, breaks)[i] == RenderAll(Preflight, breaks)[i]
      {
        Wording(breaks[i]);
      }
    }
  }

  ghost predicate SameChanges(breaks: seq<Break>, dryRun: seq<string>, preflight: seq<string>) {
    && |dryRun| == |preflight| == |breaks|
    && (forall i :: 0 <= i < |breaks| ==> dryRun[i] <= preflight[i])
    && forall i :: 0 <= i < |breaks| ==> breaks[i].DiscriminantChanged? || dryRun[i] == preflight[i]
  }

  // There is no report exactly when an error whose code has a colon was removed; otherwise its storage families
  // are those of the DataKey entries that are gone and the types that are gone.
  lemma ReportedFamilies(b: Spec, c: Spec, report: Option<Report>)
    requires WellFormed(b) && PlainSpec(b) && Classified(b, c, report)
    ensures report.None? <==> StopsOnError(b, c)
    ensures report.Some? ==>
              report.value.storageFamilies == (set e | e in GoneKeys(b, c) :: BeforeParen(e)) + GoneTypes(b, c)
  {
    StorageFamilies(b, c);
    MissingTypes(b, c);
  }

  function GoneTypes(b: Spec, c: Spec): set<string> {
    set t | t in b.dataTypes && Get(c.dataTypes, t.name).None? :: t.name
  }

  lemma MissingTypes(b: Spec, c: Spec)
    ensures (set name | name in Missing(b.dataTypes, c.dataTypes)) == GoneTypes(b, c)
  {
    forall name
      ensures name in Missing(b.dataTypes, c.dataTypes) <==> name in GoneTypes(b, c)
    {
      MissingHas(b.dataTypes, c.dataTypes, name);
    }
  }

  lemma {:induction false} MissingHas<V>(d: Dict<V>, other: Dict<V>, name: string)
    ensures name in Missing(d, other) <==> exists e :: e in d && e.name == name && Get(other, name).None?
  {
    if d != [] {
      var n := |d| - 1;
      MissingHas(d[..n], other, name);
      assert d == d[..n] + [d[n]];
    }
  }
}
