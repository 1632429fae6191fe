/** The context sniffer: classifies the active window title into a role by an
    ordered keyword table and reports a role change only when the role differs.
    The polling thread and the operating-system window query are not modelled:
    each poll tick receives the title the window query returned. */
module ContextSniffer {
  import opened Wrappers
  import PyStr

  /** One entry of the role table: the role key and its application keywords. */
  datatype Role = Role(key: string, apps: seq<string>)

  datatype Sniffer = Sniffer(
    roles: seq<Role>,
    defaultRole: string,
    lastTitle: string,
    lastRole: string)

  /** The `context_changed` signal: the window title and the detected role. */
  datatype Change = Change(title: string, role: string)

  /** The initial state of `__init__`: no title seen, the default role current. */
  function Init(roles: seq<Role>, defaultRole: string): (s: Sniffer)
    ensures s.lastTitle == "" && s.lastRole == defaultRole
    ensures s.roles == roles && s.defaultRole == defaultRole
  {
    Sniffer(roles, defaultRole, "", defaultRole)
  }

  /** A role claims a title when one of its keywords, lower-cased, occurs in the
      lower-cased title. */
  predicate Claims(role: Role, title: string) {
    exists a :: a in role.apps && PyStr.Contains(PyStr.Lower(title), PyStr.Lower(a))
  }

  /** The position of the first role, in table order, that claims the title. */
  function FirstClaim(roles: seq<Role>, title: string): (k: Option<nat>)
    ensures k.Some? ==> k.value < |roles| && Claims(roles[k.value], title)
    ensures k.Some? ==> forall j :: 0 <= j < k.value ==> !Claims(roles[j], title)
    ensures k.None? <==> forall j :: 0 <= j < |roles| ==> !Claims(roles[j], title)
  {
    if roles == [] then None
    else if Claims(roles[0], title) then Some(0)
    else match FirstClaim(roles[1..], title)
      case Some(k) => Some(k + 1)
      case None => None
  }

  /** The classification of `_process_context_change`: the first claiming role's
      key, or the default role when no role claims the title. */
  function Classify(roles: seq<Role>, defaultRole: string, title: string): (r: string)
    ensures (forall j :: 0 <= j < |roles| ==> !Claims(roles[j], title)) ==> r == defaultRole
    ensures (exists j :: 0 <= j < |roles| && Claims(roles[j], title)) ==>
              exists i :: 0 <= i < |roles| && Claims(roles[i], title) && r == roles[i].key
                && forall j :: 0 <= j < i ==> !Claims(roles[j], title)
  {
    match FirstClaim(roles, title)
    case Some(k) => roles[k].key
    case None => defaultRole
  }

  /** `_process_context_change`: report the detected role only when it differs from
      the last one reported, and remember it. */
  function ProcessChange(s: Sniffer, title: string): (r: (Sniffer, Option<Change>))
    ensures r.0.lastRole == Classify(s.roles, s.defaultRole, title)
    ensures r.1.Some? <==> Classify(s.roles, s.defaultRole, title) != s.lastRole
    ensures r.1.Some? ==> r.1.value == Change(title, r.0.lastRole)
    ensures r.0 == s.(lastRole := r.0.lastRole)
  {
    var detected := Classify(s.roles, s.defaultRole, title);
    if detected != s.lastRole then (s.(lastRole := detected), Some(Change(title, detected)))
    else (s, None)
  }

  /** One tick of `_monitor_loop`: an empty title or the title already seen does
      nothing; any other title is remembered and classified. */
  function Tick(s: Sniffer, title: string): (r: (Sniffer, Option<Change>))
    ensures title == "" || title == s.lastTitle ==> r == (s, None)
    ensures title != "" && title != s.lastTitle ==> r.0.lastTitle == title
    ensures r.0.roles == s.roles && r.0.defaultRole == s.defaultRole
    ensures r.1.Some? ==> r.1.value.title == title && r.1.value.role != s.lastRole
    ensures r.1.Some? ==> r.0.lastRole == r.1.value.role
    ensures r.1.None? ==> r.0.lastRole == s.lastRole
  {
    if title != "" && title != s.lastTitle then ProcessChange(s.(lastTitle := title), title)
    else (s, None)
  }

  /** Classification depends on the title and the table only: after a new title,
      the remembered role is its classification, whatever role was remembered before. */
  lemma TickRecordsClassification(s: Sniffer, title: string)
    requires title != "" && title != s.lastTitle
    ensures Tick(s, title).0.lastRole == Classify(s.roles, s.defaultRole, title)
  {
  }

  /** An empty keyword claims every title, since `"" in s` always holds. */
  lemma EmptyKeywordClaimsAll(role: Role, title: string)
    requires "" in role.apps
    ensures Claims(role, title)
  {
    assert PyStr.Lower("") == "";
    PyStr.EmptyIsContained(PyStr.Lower(title));
  }

  /** Right after start, a first title classified as the default role reports nothing. */
  lemma FirstDefaultTitleSilent(roles: seq<Role>, defaultRole: string, title: string)
    requires Classify(roles, defaultRole, title) == defaultRole
    ensures Tick(Init(roles, defaultRole), title).1 == None
  {
  }

  /** A reported change is not repeated: the same title on the next tick reports
      nothing, and a new title in the same role reports nothing either. */
  lemma NoRepeatedChange(s: Sniffer, title: string, next: string)
    requires next != title
    requires Classify(s.roles, s.defaultRole, next) == Classify(s.roles, s.defaultRole, title)
    requires title != "" && title != s.lastTitle
    ensures Tick(Tick(s, title).0, title).1 == None
    ensures Tick(Tick(s, title).0, next).1 == None
  {
    var s1 := Tick(s, title).0;
    assert s1.lastRole == Classify(s.roles, s.defaultRole, title);
  }

  /** In the manner of the sniffer's docstring example: a `code` role with keyword `Editor` claims
      the title `main.py - Editor`. */
  lemma RoleExample()
    ensures Classify([Role("code", ["Editor"])], "general", "main.py - Editor") == "code"
  {
    var title := "main.py - Editor";
    assert PyStr.Lower("Editor") == "editor";
    assert PyStr.Lower(title) == "main.py - editor";
    assert PyStr.Lower(title)[10..16] == "editor";
    PyStr.OccurrenceIsContained(PyStr.Lower(title), "editor", 10);
    assert Claims(Role("code", ["Editor"]), title);
  }
}
