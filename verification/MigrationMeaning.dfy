/** What the two tools report, in terms of the two specs: which changes, each once, in which words. */
module MigrationMeaning {
  import opened Options
  import opened Migration
  import opened MigrationTheorems

  ghost predicate Gone<V>(b: Dict<V>, c: Dict<V>, name: string) {
    Get(b, name).Some? && Get(c, name).None?
  }

  ghost predicate Changed<V>(b: Dict<V>, c: Dict<V>, name: string) {
    Get(b, name).Some? && Get(c, name).Some? && Get(b, name) != Get(c, name)
  }

  lemma SectionHas<V>(d: Dict<V>, current: Dict<V>, breaks: (Entry<V>, Dict<V>) -> seq<Break>, x: Break)
    requires IsDict(d)
    requires forall e :: e in d && x in breaks(e, current) ==> e.name == x.name
    ensures x in Collect(d, current, breaks) <==>
            Get(d, x.name).Some? && x in breaks(Entry.Entry(x.name, Get(d, x.name).value), current)
  {
    CollectHas(d, current, breaks, x);
    GetFinds(d, x.name);
    forall i | 0 <= i < |d|
      ensures Get(d, d[i].name) == Some(d[i].value)
    {
      GetUnique(d, i);
    }
  }

  lemma FunctionMeaning(b: Dict<string>, c: Dict<string>, x: Break)
    requires IsDict(b)
    ensures x in Collect(b, c, FunctionBreak) <==>
            (x.FunctionRemoved? && Gone(b, c, x.name)) || (x.SignatureChanged? && Changed(b, c, x.name))
  {
    SectionHas(b, c, FunctionBreak, x);
  }

  lemma ErrorMeaning(b: Dict<string>, c: Dict<string>, x: Break)
    requires IsDict(b)
    ensures x in Collect(b, c, ErrorBreak) <==>
            || (x.ErrorRemoved? && Gone(b, c, x.name) && Get(b, x.name) == Some(x.code))
            || (x.DiscriminantChanged? && Changed(b, c, x.name)
                && Get(b, x.name) == Some(x.code) && Get(c, x.name) == Some(x.newCode))
  {
    SectionHas(b, c, ErrorBreak, x);
  }

  lemma TypeMeaning(b: Dict<seq<string>>, c: Dict<seq<string>>, x: Break)
    requires IsDict(b)
    ensures x in Collect(b, c, TypeBreak) <==>
            || (x.TypeRemoved? && Gone(b, c, x.name))
            || (x.EntryRemoved? && Get(b, x.name).Some? && Get(c, x.name).Some?
                && x.entry in Get(b, x.name).value && x.entry !in Get(c, x.name).value)
  {
    forall e: Entry<seq<string>> | Get(c, e.name).Some?
      ensures x in TypeBreak(e, c) <==>
              x.EntryRemoved? && x.name == e.name && x.entry in e.value && x.entry !in Get(c, e.name).value
    {
      EntryBreaksHave(e.name, e.value, Get(c, e.name).value, x);
    }
    SectionHas(b, c, TypeBreak, x);
  }

  lemma EventMeaning(b: Dict<seq<string>>, c: Dict<seq<string>>, x: Break)
    requires IsDict(b)
    ensures x in Collect(b, c, EventBreak) <==>
            (x.EventRemoved? && Gone(b, c, x.name)) || (x.FieldsChanged? && Changed(b, c, x.name))
  {
    SectionHas(b, c, EventBreak, x);
  }

  // What each kind of breaking change stands for.
  lemma BreakMeaning(b: Spec, c: Spec, x: Break)
    requires WellFormed(b)
    ensures x in Breaks(b, c) <==>
            match x
            case FunctionRemoved(name) => Gone(b.functions, c.functions, name)
            case SignatureChanged(name) => Changed(b.functions, c.functions, name)
            case ErrorRemoved(name, code) => Gone(b.errors, c.errors, name) && Get(b.errors, name) == Some(code)
            case DiscriminantChanged(name, code, newCode) =>
              Changed(b.errors, c.errors, name)
              && Get(b.errors, name) == Some(code) && Get(c.errors, name) == Some(newCode)
            case TypeRemoved(name) => Gone(b.dataTypes, c.dataTypes, name)
            case EntryRemoved(name, entry) =>
              Get(b.dataTypes, name).Some? && Get(c.dataTypes, name).Some?
              && entry in Get(b.dataTypes, name).value && entry !in Get(c.dataTypes, name).value
            case EventRemoved(name) => Gone(b.events, c.events, name)
            case FieldsChanged(name) => Changed(b.events, c.events, name)
  {
    InBreaks(b, c, x);
    FunctionMeaning(b.functions, c.functions, x);
    ErrorMeaning(b.errors, c.errors, x);
    TypeMeaning(b.dataTypes, c.dataTypes, x);
    EventMeaning(b.events, c.events, x);
  }

  // ---------- each change once ----------

  ghost predicate Once<T>(xs: seq<T>) {
    forall i, j :: 0 <= i < j < |xs| ==> xs[i] != xs[j]
  }

  lemma OnceAppend<T>(xs: seq<T>, ys: seq<T>)
    requires Once(xs) && Once(ys) && forall x :: x in xs ==> x !in ys
    ensures Once(xs + ys)
  {
    forall i, j | 0 <= i < j < |xs + ys|
      ensures (xs + ys)[i] != (xs + ys)[j]
    {
      if i < |xs| <= j {
        assert (xs + ys)[i] in xs && (xs + ys)[j] in ys;
      }
    }
  }

  lemma {:induction false} CollectOnce<V>(d: Dict<V>, current: Dict<V>, breaks: (Entry<V>, Dict<V>) -> seq<Break>)
    requires IsDict(d)
    requires forall e, x :: e in d && x in breaks(e, current) ==> x.name == e.name
    requires forall e :: e in d ==> Once(breaks(e, current))
    ensures Once(Collect(d, current, breaks))
  {
    if d != [] {
      var n := |d| - 1;
      CollectOnce(d[..n], current, breaks);
      forall x | x in Collect(d[..n], current, breaks)
        ensures x.name != d[n].name
      {
        CollectHas(d[..n], current, breaks, x);
        var i :| 0 <= i < n && x in breaks(d[..n][i], current);
        assert d[i] in d;
      }
      assert d[n] in d;
      OnceAppend(Collect(d[..n], current, breaks), breaks(d[n], current));
    }
  }

  lemma {:induction false} EntriesOnce(name: string, entries: seq<string>, current: seq<string>)
    requires Once(entries)
    ensures Once(EntryBreaks(name, entries, current))
  {
    if entries != [] {
      var n := |entries| - 1;
      EntriesOnce(name, entries[..n], current);
      EntryBreaksHave(name, entries[..n], current, EntryRemoved(name, entries[n]));
    }
  }

  lemma TypesOnce(b: Dict<seq<string>>, c: Dict<seq<string>>)
    requires IsDict(b) && forall t :: t in b ==> Once(t.value)
    ensures Once(Collect(b, c, TypeBreak))
  {
    forall t, x | t in b && x in TypeBreak(t, c)
      ensures x.name == t.name
    {
      if Get(c, t.name).Some? {
        EntryBreaksHave(t.name, t.value, Get(c, t.name).value, x);
      }
    }
    forall t | t in b
      ensures Once(TypeBreak(t, c))
    {
      if Get(c, t.name).Some? {
        EntriesOnce(t.name, t.value, Get(c, t.name).value);
      }
    }
    CollectOnce(b, c, TypeBreak);
  }

  // The order of the sections: functions, errors, types, events.
  function Section(x: Break): nat {
    match x
    case FunctionRemoved(_) => 0
    case SignatureChanged(_) => 0
    case ErrorRemoved(_, _) => 1
    case DiscriminantChanged(_, _, _) => 1
    case TypeRemoved(_) => 2
    case EntryRemoved(_, _) => 2
    case EventRemoved(_) => 3
    case FieldsChanged(_) => 3
  }

  ghost predicate InOrder(xs: seq<Break>) {
    forall i, j :: 0 <= i < j < |xs| ==> Section(xs[i]) <= Section(xs[j])
  }

  lemma NextSection(xs: seq<Break>, ys: seq<Break>, k: nat)
    requires Once(xs) && InOrder(xs) && Once(ys)
    requires (forall x :: x in xs ==> Section(x) < k) && forall y :: y in ys ==> Section(y) == k
    ensures Once(xs + ys) && InOrder(xs + ys) && forall x :: x in xs + ys ==> Section(x) < k + 1
  {
    OnceAppend(xs, ys);
    forall i, j | 0 <= i < j < |xs + ys|
      ensures Section((xs + ys)[i]) <= Section((xs + ys)[j])
    {
      if j >= |xs| {
        assert (xs + ys)[j] in ys;
        assert i < |xs| ==> (xs + ys)[i] in xs;
        assert i >= |xs| ==> (xs + ys)[i] in ys;
      }
    }
  }

  lemma Sections(b: Spec, c: Spec, x: Break)
    requires WellFormed(b)
    ensures x in Collect(b.functions, c.functions, FunctionBreak) ==> Section(x) == 0
    ensures x in Collect(b.errors, c.errors, ErrorBreak) ==> Section(x) == 1
    ensures x in Collect(b.dataTypes, c.dataTypes, TypeBreak) ==> Section(x) == 2
    ensures x in Collect(b.events, c.events, EventBreak) ==> Section(x) == 3
  {
    FunctionMeaning(b.functions, c.functions, x);
    ErrorMeaning(b.errors, c.errors, x);
    TypeMeaning(b.dataTypes, c.dataTypes, x);
    EventMeaning(b.events, c.events, x);
  }

  lemma SectionsOnce(b: Spec, c: Spec)
    requires WellFormed(b) && forall t :: t in b.dataTypes ==> Once(t.value)
    ensures Once(Collect(b.functions, c.functions, FunctionBreak)) && Once(Collect(b.errors, c.errors, ErrorBreak))
    ensures Once(Collect(b.dataTypes, c.dataTypes, TypeBreak)) && Once(Collect(b.events, c.events, EventBreak))
  {
    CollectOnce(b.functions, c.functions, FunctionBreak);
    CollectOnce(b.errors, c.errors, ErrorBreak);
    TypesOnce(b.dataTypes, c.dataTypes);
    CollectOnce(b.events, c.events, EventBreak);
  }

  lemma JoinSections(functions: seq<Break>, errors: seq<Break>, types: seq<Break>, events: seq<Break>)
    requires Once(functions) && Once(errors) && Once(types) && Once(events)
    requires (forall x :: x in functions ==> Section(x) == 0) && forall x :: x in errors ==> Section(x) == 1
    requires (forall x :: x in types ==> Section(x) == 2) && forall x :: x in events ==> Section(x) == 3
    ensures Once(functions + errors + types + events) && InOrder(functions + errors + types + events)
  {
    assert [] + functions == functions;
    NextSection([], functions, 0);
    NextSection(functions, errors, 1);
    NextSection(functions + errors, types, 2);
    NextSection(functions + errors + types, events, 3);
  }

  // Functions come before errors, errors before types and types before events, and no change is reported twice if no
  // data type lists an entry twice.
  lemma BreaksOnce(b: Spec, c: Spec)
    requires WellFormed(b) && forall t :: t in b.dataTypes ==> Once(t.value)
    ensures Once(Breaks(b, c)) && InOrder(Breaks(b, c))
  {
    forall x
      ensures x in Collect(b.functions, c.functions, FunctionBreak) ==> Section(x) == 0
      ensures x in Collect(b.errors, c.errors, ErrorBreak) ==> Section(x) == 1
      ensures x in Collect(b.dataTypes, c.dataTypes, TypeBreak) ==> Section(x) == 2
      ensures x in Collect(b.events, c.events, EventBreak) ==> Section(x) == 3
    {
      Sections(b, c, x);
    }
    SectionsOnce(b, c);
    JoinSections(Collect(b.functions, c.functions, FunctionBreak), Collect(b.errors, c.errors, ErrorBreak),
                 Collect(b.dataTypes, c.dataTypes, TypeBreak), Collect(b.events, c.events, EventBreak));
  }

  // ---------- in words ----------

  lemma IsTold(tool: Tool, b: Spec, c: Spec, x: Break)
    requires x in Breaks(b, c)
    ensures Render(tool, x) in RenderAll(tool, Breaks(b, c))
  {
    var breaks := Breaks(b, c);
    var i :| 0 <= i < |breaks| && breaks[i] == x;
    assert RenderAll(tool, breaks)[i] == Render(tool, x);
  }

  // What is gone is reported as removed.
  lemma RemovalsAreTold(tool: Tool, b: Spec, c: Spec, name: string)
    requires WellFormed(b)
    ensures var told := RenderAll(tool, Breaks(b, c));
            && (Gone(b.functions, c.functions, name) ==>
                  "function `" + name + "` was removed from PromptHashTrait" in told)
            && (Gone(b.errors, c.errors, name) ==>
                  "Error variant `" + name + "` (=" + Get(b.errors, name).value + ") was removed" in told)
            && (Gone(b.dataTypes, c.dataTypes, name) ==> "type `" + name + "` was removed" in told)
            && (Gone(b.events, c.events, name) ==> "event `" + name + "` was removed" in told)
  {
    if Gone(b.functions, c.functions, name) {
      BreakMeaning(b, c, FunctionRemoved(name));
      IsTold(tool, b, c, FunctionRemoved(name));
    }
    if Gone(b.errors, c.errors, name) {
      BreakMeaning(b, c, ErrorRemoved(name, Get(b.errors, name).value));
      IsTold(tool, b, c, ErrorRemoved(name, Get(b.errors, name).value));
    }
    if Gone(b.dataTypes, c.dataTypes, name) {
      BreakMeaning(b, c, TypeRemoved(name));
      IsTold(tool, b, c, TypeRemoved(name));
    }
    if Gone(b.events, c.events, name) {
      BreakMeaning(b, c, EventRemoved(name));
      IsTold(tool, b, c, EventRemoved(name));
    }
  }

  // What differs is reported as changed; only the preflight tool names the discriminants.
  lemma ChangesAreTold(tool: Tool, b: Spec, c: Spec, name: string)
    requires WellFormed(b)
    ensures var told := RenderAll(tool, Breaks(b, c));
            && (Changed(b.functions, c.functions, name) ==> "function `" + name + "` signature changed" in told)
            && (Changed(b.errors, c.errors, name) && tool.DryRun? ==>
                  "Error variant `" + name + "` discriminant changed" in told)
            && (Changed(b.errors, c.errors, name) && tool.Preflight? ==>
                  "Error variant `" + name + "` discriminant changed (" + Get(b.errors, name).value + " -> "
                  + Get(c.errors, name).value + ")" in told)
            && (Changed(b.events, c.events, name) ==> "event `" + name + "` field list changed" in told)
  {
    if Changed(b.functions, c.functions, name) {
      BreakMeaning(b, c, SignatureChanged(name));
      IsTold(tool, b, c, SignatureChanged(name));
    }
    if Changed(b.errors, c.errors, name) {
      BreakMeaning(b, c, DiscriminantChanged(name, Get(b.errors, name).value, Get(c.errors, name).value));
      IsTold(tool, b, c, DiscriminantChanged(name, Get(b.errors, name).value, Get(c.errors, name).value));
    }
    if Changed(b.events, c.events, name) {
      BreakMeaning(b, c, FieldsChanged(name));
      IsTold(tool, b, c, FieldsChanged(name));
    }
  }

  lemma EntriesAreTold(tool: Tool, b: Spec, c: Spec, name: string, entry: string)
    requires WellFormed(b) && Get(b.dataTypes, name).Some? && Get(c.dataTypes, name).Some?
    requires entry in Get(b.dataTypes, name).value && entry !in Get(c.dataTypes, name).value
    ensures "`" + name + "`: `" + entry + "` was removed or changed shape" in RenderAll(tool, Breaks(b, c))
  {
    BreakMeaning(b, c, EntryRemoved(name, entry));
    IsTold(tool, b, c, EntryRemoved(name, entry));
  }

  // ---------- what is added ----------

  lemma MissingMeaning<V>(d: Dict<V>, other: Dict<V>, name: string)
    ensures name in Missing(d, other) <==> Gone(d, other, name)
  {
    MissingHas(d, other, name);
    GetFinds(d, name);
    if e :| e in d && e.name == name {
      var i :| 0 <= i < |d| && d[i] == e;
    }
  }

  lemma {:induction false} NewEntriesHave(name: string, entries: seq<string>, known: seq<string>, text: string)
    ensures text in NewEntries(name, entries, known) <==>
            exists e :: e in entries && e !in known && text == name + "::" + e
  {
    if entries != [] {
      var n := |entries| - 1;
      NewEntriesHave(name, entries[..n], known, text);
      assert entries == entries[..n] + [entries[n]];
    }
  }

  ghost predicate NewEntry(t: Entry<seq<string>>, baseline: Dict<seq<string>>, text: string) {
    && Get(baseline, t.name).Some?
    && exists e :: e in t.value && e !in Get(baseline, t.name).value && text == t.name + "::" + e
  }

  lemma LastAdded(front: Dict<seq<string>>, last: Entry<seq<string>>, baseline: Dict<seq<string>>, text: string)
    ensures text in AddedEntries(front + [last], baseline) <==>
            text in AddedEntries(front, baseline) || NewEntry(last, baseline, text)
  {
    assert (front + [last])[..|front|] == front;
    if Get(baseline, last.name).Some? {
      NewEntriesHave(last.name, last.value, Get(baseline, last.name).value, text);
    }
  }

  ghost predicate Adds(current: Dict<seq<string>>, baseline: Dict<seq<string>>, text: string) {
    exists t :: t in current && NewEntry(t, baseline, text)
  }

  lemma {:induction false} AddedEntriesHave(current: Dict<seq<string>>, baseline: Dict<seq<string>>, text: string)
    ensures text in AddedEntries(current, baseline) <==> Adds(current, baseline, text)
  {
    if current != [] {
      var n := |current| - 1;
      AddedEntriesHave(current[..n], baseline, text);
      assert current == current[..n] + [current[n]];
      LastAdded(current[..n], current[n], baseline, text);
      AddsAppend(current[..n], current[n], baseline, text);
    }
  }

  lemma AddsAppend(front: Dict<seq<string>>, last: Entry<seq<string>>, baseline: Dict<seq<string>>, text: string)
    ensures Adds(front + [last], baseline, text) <==> Adds(front, baseline, text) || NewEntry(last, baseline, text)
  {
    assert last in front + [last];
    if t :| t in front && NewEntry(t, baseline, text) {
      assert t in front + [last];
    }
  }

  // What a report lists as added: the functions, types and events only the current spec has, its new errors, and the
  // new entries of the types both specs have.
  lemma AdditionsMeaning(b: Spec, c: Spec, r: Report, text: string)
    requires Classified(b, c, Some(r))
    ensures text in r.addedFunctions <==> Gone(c.functions, b.functions, text)
    ensures text in r.addedTypes <==> Gone(c.dataTypes, b.dataTypes, text)
    ensures text in r.addedEvents <==> Gone(c.events, b.events, text)
    ensures text in r.addedVariants <==>
            || (exists name :: Gone(c.errors, b.errors, name) && text == "Error::" + name)
            || Adds(c.dataTypes, b.dataTypes, text)
  {
    MissingMeaning(c.functions, b.functions, text);
    MissingMeaning(c.dataTypes, b.dataTypes, text);
    MissingMeaning(c.events, b.events, text);
    AddedEntriesHave(c.dataTypes, b.dataTypes, text);
    PrefixedHas(c.errors, b.errors, text);
  }

  lemma PrefixedHas(d: Dict<string>, other: Dict<string>, text: string)
    ensures text in Prefixed("Error::", Missing(d, other)) <==>
            exists name :: Gone(d, other, name) && text == "Error::" + name
  {
    var names := Missing(d, other);
    if text in Prefixed("Error::", names) {
      var i :| 0 <= i < |names| && Prefixed("Error::", names)[i] == text;
      MissingMeaning(d, other, names[i]);
    }
    if name :| Gone(d, other, name) && text == "Error::" + name {
      MissingMeaning(d, other, name);
      var i :| 0 <= i < |names| && names[i] == name;
      assert Prefixed("Error::", names)[i] == text;
    }
  }

  // A family is the entry up to its first parenthesis.
  lemma {:induction false} BeforeParenMeaning(s: string)
    ensures BeforeParen(s) <= s && '(' !in BeforeParen(s)
    ensures BeforeParen(s) == s || s[|BeforeParen(s)|] == '('
  {
    if s != "" && s[0] != '(' {
      BeforeParenMeaning(s[1..]);
      assert s == [s[0]] + s[1..];
    }
  }
}
