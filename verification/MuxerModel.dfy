/**
 * The action muxer of src/gactionmuxer.c: names routed to groups by their
 * first dot, and a table of watchers by full name.
 */
module MuxerModel {
  import opened Wrappers

  /** What query_action reports of an action. Types and states are opaque here. */
  datatype Info = Info(enabled: bool, parameterType: nat, state: nat)

  /** The Action struct: whom to tell about the action called fullname. */
  datatype Action = Action(fullname: string, watchers: seq<nat>)

  datatype State = State(
    groups: map<string, nat>,                     // prefix -> group
    contents: map<nat, map<string, Info>>,        // the groups' own actions
    table: map<string, nat>,                      // GActionMuxer.actions: full name -> Action struct
    records: map<nat, Action>,                    // the Action structs in memory
    views: map<(nat, string), Option<Info>>,      // what each observer believes about each name
    weakRefs: multiset<(nat, nat)>,               // (observer, Action struct) of g_object_weak_ref
    extraRefs: nat,                               // references the Action structs hold on the muxer
    nextId: nat,
    registrations: multiset<(nat, string)>)       // history: registered and not yet unregistered

  const INITIAL := State(map[], map[], map[], map[], map[], multiset{}, 0, 0, multiset{})

  // ---- Names --------------------------------------------------------------------

  function FullName(prefix: string, name: string): string {
    prefix + "." + name
  }

  /** strchr and g_strndup in find_group: the part before the first dot and the part after it. */
  function Split(fullname: string): (r: Option<(string, string)>)
  {
    if fullname == [] then None
    else if fullname[0] == '.' then Some(([], fullname[1..]))
    else
      match Split(fullname[1..])
      case None => None
      case Some((prefix, name)) => Some(([fullname[0]] + prefix, name))
  }

  /** For a prefix without a dot, splitting undoes joining, dots in the action name or not. */
  lemma {:induction false} SplitFullName(prefix: string, name: string)
    requires '.' !in prefix
    ensures Split(FullName(prefix, name)) == Some((prefix, name))
  {
    var f := FullName(prefix, name);
    if prefix == [] {
      assert f[1..] == name;
    } else {
      assert f[1..] == FullName(prefix[1..], name);
      SplitFullName(prefix[1..], name);
      assert [prefix[0]] + prefix[1..] == prefix;
    }
  }

  /** And joining undoes splitting; the prefix found never contains a dot. */
  lemma {:induction false} FullNameSplit(fullname: string)
    ensures match Split(fullname)
            case None => '.' !in fullname
            case Some((prefix, name)) => '.' !in prefix && fullname == FullName(prefix, name)
  {
    if fullname != [] && fullname[0] != '.' {
      FullNameSplit(fullname[1..]);
      assert fullname == [fullname[0]] + fullname[1..];
    }
  }

  // ---- Querying -------------------------------------------------------------------

  function Lookup(contents: map<nat, map<string, Info>>, group: nat, name: string): Option<Info> {
    if group in contents && name in contents[group] then Some(contents[group][name]) else None
  }

  /** g_action_muxer_query_action */
  function Query(s: State, fullname: string): Option<Info> {
    match Split(fullname)
    case None => None
    case Some((prefix, name)) =>
      if prefix in s.groups then Lookup(s.contents, s.groups[prefix], name) else None
  }

  // ---- Observers ----------------------------------------------------------------------

  function Watchers(s: State, fullname: string): seq<nat> {
    if fullname in s.table && s.table[fullname] in s.records then s.records[s.table[fullname]].watchers else []
  }

  datatype Change = Added(info: Info) | Removed | EnabledChanged(enabled: bool) | StateChanged(state: nat)

  /** What an observer makes of a notification. */
  function Told(view: Option<Info>, c: Change): Option<Info> {
    match c
    case Added(info) => Some(info)
    case Removed => None
    case EnabledChanged(enabled) => if view.None? then None else Some(view.value.(enabled := enabled))
    case StateChanged(state) => if view.None? then None else Some(view.value.(state := state))
  }

  function ViewOf(views: map<(nat, string), Option<Info>>, observer: nat, fullname: string): Option<Info> {
    if (observer, fullname) in views then views[(observer, fullname)] else None
  }

  /** Every watcher of the name is told, once for each time it is in the list. */
  function Tell(views: map<(nat, string), Option<Info>>, watchers: seq<nat>, fullname: string, c: Change)
    : map<(nat, string), Option<Info>>
    decreases watchers
  {
    if watchers == [] then views
    else
      var o := watchers[0];
      Tell(views[(o, fullname) := Told(ViewOf(views, o, fullname), c)], watchers[1..], fullname, c)
  }

  lemma {:induction false} TellEffect(
      views: map<(nat, string), Option<Info>>, watchers: seq<nat>, fullname: string, c: Change, o: nat, f: string)
    ensures ViewOf(Tell(views, watchers, fullname, c), o, f) ==
            if f == fullname && o in watchers then Told(ViewOf(views, o, f), c) else ViewOf(views, o, f)
    decreases watchers
  {
    if watchers != [] {
      var w := watchers[0];
      var next := views[(w, fullname) := Told(ViewOf(views, w, fullname), c)];
      TellEffect(next, watchers[1..], fullname, c, o, f);
    }
  }

  /** What the observers believe is what querying would tell them. */
  ghost predicate Agrees(s: State) {
    forall o: nat, f: string :: f in s.table && o in Watchers(s, f) ==> ViewOf(s.views, o, f) == Query(s, f)
  }

  ghost predicate TableOk(s: State) {
    && (forall f :: f in s.table ==>
          s.table[f] in s.records && s.records[s.table[f]].fullname == f && s.records[s.table[f]].watchers != [])
    && (forall a :: a in s.records ==>
          a < s.nextId && s.records[a].fullname in s.table && s.table[s.records[a].fullname] == a)
  }
}
