/** Deployment templates of applications: revisions, the default template, and the releases that refer to them. */
module Templates {
  import opened Wrappers

  datatype Template = Template(app: nat, name: string, enabled: bool, spec: string, revision: nat)

  /** What a caller supplies for a template; the revision is the store's own. */
  datatype Draft = Draft(app: nat, name: string, enabled: bool, spec: string)

  /** `last` is the highest template id ever used, `defaults` the applications with their default, `releases` the
      template of every release. */
  datatype State = State(templates: map<nat, Template>, last: nat, defaults: map<nat, Option<nat>>,
      releases: seq<Option<nat>>)

  datatype Reply = Done | NotFound | NameTaken | RevisionConflict(current: nat) | StillReferenced

  predicate Owns(s: State, app: nat, id: nat) {
    id in s.templates && s.templates[id].app == app
  }

  /** Every default exists and belongs to its application, and ids are never reused. */
  ghost predicate Valid(s: State) {
    && (forall id <- s.templates :: 0 < id <= s.last)
    && (forall id <- s.templates :: s.templates[id].revision >= 1)
    && (forall app <- s.defaults :: s.defaults[app].Some? ==> Owns(s, app, s.defaults[app].value))
  }

  predicate NameHeld(s: State, id: nat, draft: Draft) {
    exists i <- s.templates :: i != id && s.templates[i].app == draft.app && s.templates[i].name == draft.name
  }

  predicate Refers(s: State, id: nat) {
    Some(id) in s.releases
  }

  function Stored(draft: Draft, revision: nat): Template {
    Template(draft.app, draft.name, draft.enabled, draft.spec, revision)
  }

  // ---------- operations ----------

  /** A new row starts enabled whatever the draft says, because the column's default replaces a false value on
      insert. */
  function Created(s: State, draft: Draft, makeDefault: bool): (State, Reply) {
    if NameHeld(s, s.last + 1, draft) then (s, NameTaken)
    else
      var id := s.last + 1;
      var defaults := if makeDefault && draft.app in s.defaults then s.defaults[draft.app := Some(id)] else s.defaults;
      (s.(templates := s.templates[id := Stored(draft, 1).(enabled := true)], last := id, defaults := defaults), Done)
  }

  function Updated(s: State, id: nat, draft: Draft, expected: Option<nat>): (State, Reply) {
    if !Owns(s, draft.app, id) then (s, NotFound)
    else
      var current := s.templates[id].revision;
      if expected.Some? && current != expected.value then (s, RevisionConflict(current))
      else if NameHeld(s, id, draft) then (s, NameTaken)
      else (s.(templates := s.templates[id := Stored(draft, current + 1)]), Done)
  }

  function DefaultSet(s: State, app: nat, id: nat): (State, Reply) {
    if !Owns(s, app, id) || !s.templates[id].enabled then (s, NotFound)
    else if app in s.defaults then (s.(defaults := s.defaults[app := Some(id)]), Done)
    else (s, Done)
  }

  function Deleted(s: State, app: nat, id: nat): (State, Reply) {
    if Refers(s, id) then (s, StillReferenced)
    else
      var templates := if Owns(s, app, id) then s.templates - {id} else s.templates;
      var defaults := if app in s.defaults && s.defaults[app] == Some(id) then s.defaults[app := None] else s.defaults;
      (s.(templates := templates, defaults := defaults), Done)
  }

  function Released(s: State, template: Option<nat>): State {
    s.(releases := s.releases + [template])
  }

  // ---------- what an accepted change stores ----------

  ghost predicate NameFree(s: State, self: nat, draft: Draft) {
    forall i <- s.templates :: i != self ==> !(s.templates[i].app == draft.app && s.templates[i].name == draft.name)
  }

  /** A new template is stored whole under a fresh id with revision 1, and becomes the default exactly if asked to and
      its application exists. */
  lemma CreateStores(s: State, draft: Draft, makeDefault: bool)
    requires Valid(s)
    ensures var (z, reply) := Created(s, draft, makeDefault); var id := s.last + 1;
            && (reply == Done <==> NameFree(s, id, draft))
            && (reply != Done ==> z == s)
            && (reply == Done ==>
                  && id !in s.templates && z.last == id && z.releases == s.releases
                  && z.templates == s.templates[id := Template(draft.app, draft.name, true, draft.spec, 1)]
                  && z.defaults.Keys == s.defaults.Keys
                  && forall app <- s.defaults ::
                       z.defaults[app] == if makeDefault && app == draft.app then Some(id) else s.defaults[app])
  {
  }

  /** An update is accepted exactly when the row is the application's, the expected revision, if any, is the current
      one, and the name is free; it then replaces everything but the id and counts one revision. */
  lemma UpdateStores(s: State, id: nat, draft: Draft, expected: Option<nat>)
    ensures var (z, reply) := Updated(s, id, draft, expected);
            && (reply == Done <==>
                  && id in s.templates && s.templates[id].app == draft.app
                  && (expected.Some? ==> s.templates[id].revision == expected.value) && NameFree(s, id, draft))
            && (reply != Done ==> z == s)
            && (reply == Done ==>
                  z == s.(templates := s.templates[id :=
                         Template(draft.app, draft.name, draft.enabled, draft.spec, s.templates[id].revision + 1)]))
  {
  }

  /** A default is set exactly to an enabled template of the application, and nothing else changes. */
  lemma SetDefaultStores(s: State, app: nat, id: nat)
    ensures var (z, reply) := DefaultSet(s, app, id);
            && (reply == Done <==> id in s.templates && s.templates[id].app == app && s.templates[id].enabled)
            && z == s.(defaults := z.defaults) && z.defaults.Keys == s.defaults.Keys
            && forall a <- s.defaults ::
                 z.defaults[a] == if reply == Done && a == app then Some(id) else s.defaults[a]
  {
  }

  /** A delete is refused exactly while a release refers to the template; otherwise the application's own row goes, and
      so does its default if that was the one. */
  lemma DeleteStores(s: State, app: nat, id: nat)
    ensures var (z, reply) := Deleted(s, app, id);
            && (reply == Done <==> forall r <- s.releases :: r != Some(id))
            && (reply != Done ==> z == s)
            && z == s.(templates := z.templates, defaults := z.defaults)
            && (reply == Done ==>
                  && (forall i <- s.templates :: i in z.templates <==> !(i == id && s.templates[i].app == app))
                  && (forall i <- z.templates :: i in s.templates && z.templates[i] == s.templates[i])
                  && z.defaults.Keys == s.defaults.Keys
                  && forall a <- s.defaults ::
                       z.defaults[a] == if a == app && s.defaults[a] == Some(id) then None else s.defaults[a])
  {
  }

  // ---------- runs ----------

  datatype Action =
    | Create(draft: Draft, makeDefault: bool)
    | Update(id: nat, draft: Draft, expected: Option<nat>)
    | SetDefault(app: nat, id: nat)
    | Delete(app: nat, id: nat)
    | Release(template: Option<nat>)

  function Apply(s: State, a: Action): (State, Reply) {
    match a
    case Create(draft, makeDefault) => Created(s, draft, makeDefault)
    case Update(id, draft, expected) => Updated(s, id, draft, expected)
    case SetDefault(app, id) => DefaultSet(s, app, id)
    case Delete(app, id) => Deleted(s, app, id)
    case Release(template) => (Released(s, template), Done)
  }

  function Exec(s: State, run: seq<Action>): State {
    if run == [] then s else Apply(Exec(s, run[..|run| - 1]), run[|run| - 1]).0
  }

  predicate Accepts(s: State, a: Action, id: nat) {
    a.Update? && a.id == id && Apply(s, a).1 == Done
  }

  /** How many updates of a template a run accepted. */
  function Accepted(s: State, run: seq<Action>, id: nat): nat {
    if run == [] then 0
    else
      var before := run[..|run| - 1];
      Accepted(s, before, id) + if Accepts(Exec(s, before), run[|run| - 1], id) then 1 else 0
  }

  lemma StepKeepsValid(s: State, a: Action)
    requires Valid(s)
    ensures Valid(Apply(s, a).0)
    ensures s.last <= Apply(s, a).0.last
  {
  }

  /** A template that a release refers to stays, and no row changes except by an accepted update. */
  lemma StepOnRow(s: State, a: Action, id: nat)
    requires Valid(s)
    ensures var z := Apply(s, a).0;
            && (Refers(s, id) ==> Refers(z, id))
            && (Refers(s, id) && id in s.templates ==> id in z.templates)
            && (id in z.templates && id !in s.templates ==> id > s.last && z.templates[id].revision == 1)
            && (id in z.templates && id in s.templates ==>
                  && z.templates[id].app == s.templates[id].app
                  && z.templates[id].revision == s.templates[id].revision + (if Accepts(s, a, id) then 1 else 0)
                  && (!Accepts(s, a, id) ==> z.templates[id] == s.templates[id]))
            && (Accepts(s, a, id) ==> id in s.templates)
  {
  }

  lemma {:induction false} RunKeepsValid(s: State, run: seq<Action>)
    requires Valid(s)
    ensures Valid(Exec(s, run))
    ensures s.last <= Exec(s, run).last
  {
    if run != [] {
      RunKeepsValid(s, run[..|run| - 1]);
      StepKeepsValid(Exec(s, run[..|run| - 1]), run[|run| - 1]);
    }
  }

  function StartRevision(s: State, id: nat): nat {
    if id in s.templates then s.templates[id].revision else 1
  }

  /** A template's revision counts its accepted updates: from 1 if the run created it, from where it stood otherwise. */
  lemma {:induction false} RevisionCountsUpdates(s: State, run: seq<Action>, id: nat)
    requires Valid(s)
    ensures id in Exec(s, run).templates
            ==> Exec(s, run).templates[id].revision == StartRevision(s, id) + Accepted(s, run, id)
    ensures id in Exec(s, run).templates && id !in s.templates ==> id > s.last
    ensures id > Exec(s, run).last ==> Accepted(s, run, id) == 0
  {
    if run != [] {
      var before, last := run[..|run| - 1], run[|run| - 1];
      var mid := Exec(s, before);
      RevisionCountsUpdates(s, before, id);
      RunKeepsValid(s, before);
      StepKeepsValid(mid, last);
      StepOnRow(mid, last, id);
    }
  }

  lemma {:induction false} RowStandsUntilUpdated(s: State, run: seq<Action>, id: nat)
    requires Valid(s) && id in s.templates && id in Exec(s, run).templates
    ensures Exec(s, run).templates[id].app == s.templates[id].app
    ensures Accepted(s, run, id) == 0 ==> Exec(s, run).templates[id] == s.templates[id]
  {
    if run != [] {
      var before, last := run[..|run| - 1], run[|run| - 1];
      var mid := Exec(s, before);
      RunKeepsValid(s, before);
      StepKeepsValid(mid, last);
      StepOnRow(mid, last, id);
      RowStandsUntilUpdated(s, before, id);
    }
  }

  /**
   * A conditional update with the revision read earlier is accepted exactly when the row is still there, nothing was
   * accepted for it in between and the name is free; the row it replaces is then the very row that was read.
   */
  lemma ConditionalUpdateIff(s: State, run: seq<Action>, id: nat, draft: Draft)
    requires Valid(s) && id in s.templates && draft.app == s.templates[id].app
    ensures var z, read := Exec(s, run), s.templates[id].revision;
            && (Updated(z, id, draft, Some(read)).1 == Done <==>
                  id in z.templates && Accepted(s, run, id) == 0 && !NameHeld(z, id, draft))
            && (Updated(z, id, draft, Some(read)).1 == Done ==> z.templates[id] == s.templates[id])
  {
    RunKeepsValid(s, run);
    RevisionCountsUpdates(s, run, id);
    if id in Exec(s, run).templates {
      RowStandsUntilUpdated(s, run, id);
    }
  }

  // ---------- releases ----------

  /** Once a release refers to an existing template, no run removes that template. */
  lemma {:induction false} ReferencedTemplateStays(s: State, run: seq<Action>, id: nat)
    requires Valid(s) && Refers(s, id) && id in s.templates
    ensures Refers(Exec(s, run), id) && id in Exec(s, run).templates
  {
    if run != [] {
      var before := run[..|run| - 1];
      ReferencedTemplateStays(s, before, id);
      RunKeepsValid(s, before);
      StepOnRow(Exec(s, before), run[|run| - 1], id);
    }
  }

  /** Every release refers to a template that exists, or to none. */
  ghost predicate NoDangling(s: State) {
    forall r <- s.releases :: r.Some? ==> r.value in s.templates
  }

  predicate NamesTemplate(s: State, a: Action) {
    a.Release? && a.template.Some? ==> a.template.value in s.templates
  }

  /** A step keeps all references intact exactly when it is not the creation of a release for a missing template. */
  lemma StepKeepsReferencesIff(s: State, a: Action)
    requires Valid(s) && NoDangling(s)
    ensures NoDangling(Apply(s, a).0) <==> NamesTemplate(s, a)
  {
    var z := Apply(s, a).0;
    if NamesTemplate(s, a) {
      forall r | r in z.releases && r.Some?
        ensures r.value in z.templates
      {
        if r in s.releases {
          StepOnRow(s, a, r.value);
        }
      }
    } else {
      assert a.template in z.releases;
    }
  }

  /** The store itself does not prevent it: a template read before its deletion can still be named by a later
      release. */
  lemma ReleaseCanDangle()
    ensures exists s: State, run: seq<Action> ::
            Valid(s) && NoDangling(s) && 1 in s.templates
            && !NoDangling(Exec(s, run))
  {
    var s := State(map[1 := Template(1, "t", true, "", 1)], 1, map[1 := None], []);
    var gone := Apply(s, Delete(1, 1)).0;
    var run := [Delete(1, 1), Release(Some(1))];
    assert run[..1] == [Delete(1, 1)] && run[..1][..0] == [];
    assert Exec(s, run[..1]) == gone;
    assert Exec(s, run) == Released(gone, Some(1));
    assert Some(1) in Exec(s, run).releases;
  }

  // ---------- the default and the enabled flag ----------

  ghost predicate DefaultsEnabled(s: State) {
    forall app <- s.defaults :: s.defaults[app].Some? && s.defaults[app].value in s.templates
        ==> s.templates[s.defaults[app].value].enabled
  }

  /** An update that would disable the default of its application, with the right revision if any and a free name. */
  predicate DisablesDefault(s: State, a: Action) {
    && a.Update? && !a.draft.enabled
    && a.draft.app in s.defaults && s.defaults[a.draft.app] == Some(a.id)
    && (a.expected.Some? ==> a.id in s.templates && s.templates[a.id].revision == a.expected.value)
    && !NameHeld(s, a.id, a.draft)
  }

  /** A default is enabled when it is chosen, and stays so exactly until an update disables it: updates do not look
      at the default. */
  lemma DefaultStaysEnabledIff(s: State, a: Action)
    requires Valid(s) && DefaultsEnabled(s)
    ensures DefaultsEnabled(Apply(s, a).0) <==> !DisablesDefault(s, a)
  {
    var z := Apply(s, a).0;
    if DisablesDefault(s, a) {
      assert z.defaults[a.draft.app] == Some(a.id);
    }
  }

  /** And that happens: the only template of an application is its default, and an update disables it. */
  lemma DefaultCanBeDisabled()
    ensures exists s: State, a: Action ::
            Valid(s) && DefaultsEnabled(s) && DisablesDefault(s, a)
            && !DefaultsEnabled(Apply(s, a).0)
  {
    var s := State(map[1 := Template(1, "t", true, "", 1)], 1, map[1 := Some(1)], []);
    var a := Update(1, Draft(1, "t", false, ""), None);
    assert Valid(s) && DefaultsEnabled(s) && DisablesDefault(s, a);
    DefaultStaysEnabledIff(s, a);
  }

  // ---------- the store ----------

  class TemplateStore {
    var templates: map<nat, Template>
    var last: nat
    var defaults: map<nat, Option<nat>>
    var releases: seq<Option<nat>>

    ghost function Contents(): State
      reads this
    {
      State(templates, last, defaults, releases)
    }

    constructor (s: State)
      requires Valid(s)
      ensures Contents() == s
    {
      templates, last, defaults, releases := s.templates, s.last, s.defaults, s.releases;
    }

    method Insert(draft: Draft) returns (ok: bool, id: nat)
      modifies this`templates, this`last
      ensures ok <==> !NameHeld(old(Contents()), old(last) + 1, draft)
      ensures !ok ==> Contents() == old(Contents())
      ensures ok ==>
              id == old(last) + 1 && last == id
              && templates == old(templates)[id := Stored(draft, 1).(enabled := true)]
    {
      id := last + 1;
      ok := !(exists i <- templates :: i != id && templates[i].app == draft.app && templates[i].name == draft.name);
      if ok {
        templates := templates[id := Template(draft.app, draft.name, true, draft.spec, 1)];
        last := id;
      }
    }

    method SetDefaultColumn(app: nat, value: Option<nat>)
      modifies this`defaults
      ensures defaults == if app in old(defaults) then old(defaults)[app := value] else old(defaults)
    {
      if app in defaults {
        defaults := defaults[app := value];
      }
    }

    method Create(draft: Draft, makeDefault: bool) returns (reply: Reply)
      requires Valid(Contents())
      modifies this
      ensures (Contents(), reply) == Created(old(Contents()), draft, makeDefault)
      ensures Valid(Contents())
    {
      StepKeepsValid(Contents(), Action.Create(draft, makeDefault));
      var ok, id := Insert(draft);
      if !ok {
        return NameTaken;
      }
      if makeDefault {
        SetDefaultColumn(draft.app, Some(id));
      }
      reply := Done;
    }

    /** Both forms of the update: without an expected revision, and with the one the caller read. */
    method Update(id: nat, draft: Draft, expected: Option<nat>) returns (reply: Reply)
      requires Valid(Contents())
      modifies this`templates
      ensures (Contents(), reply) == Updated(old(Contents()), id, draft, expected)
      ensures Valid(Contents())
    {
      StepKeepsValid(Contents(), Action.Update(id, draft, expected));
      if id !in templates || templates[id].app != draft.app {
        return NotFound;
      }
      var current := templates[id];
      if expected.Some? && current.revision != expected.value {
        return RevisionConflict(current.revision);
      }
      if exists i <- templates :: i != id && templates[i].app == draft.app && templates[i].name == draft.name {
        return NameTaken;
      }
      templates := templates[id := Stored(draft, current.revision + 1)];
      reply := Done;
    }

    method SetDefault(app: nat, id: nat) returns (reply: Reply)
      requires Valid(Contents())
      modifies this`defaults
      ensures (Contents(), reply) == DefaultSet(old(Contents()), app, id)
      ensures Valid(Contents())
    {
      StepKeepsValid(Contents(), Action.SetDefault(app, id));
      if id !in templates || templates[id].app != app || !templates[id].enabled {
        return NotFound;
      }
      SetDefaultColumn(app, Some(id));
      reply := Done;
    }

    method Delete(app: nat, id: nat) returns (reply: Reply)
      requires Valid(Contents())
      modifies this`templates, this`defaults
      ensures (Contents(), reply) == Deleted(old(Contents()), app, id)
      ensures Valid(Contents())
    {
      StepKeepsValid(Contents(), Action.Delete(app, id));
      if Some(id) in releases {
        return StillReferenced;
      }
      if id in templates && templates[id].app == app {
        templates := templates - {id};
      }
      if app in defaults && defaults[app] == Some(id) {
        SetDefaultColumn(app, None);
      }
      reply := Done;
    }

    method CreateRelease(template: Option<nat>)
      requires Valid(Contents())
      modifies this`releases
      ensures Contents() == Released(old(Contents()), template)
      ensures Valid(Contents())
    {
      releases := releases + [template];
    }
  }
}
