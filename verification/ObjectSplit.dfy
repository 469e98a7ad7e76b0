/**
 The splitting of the object configuration for the pollers: from the hosts of
 a poller's hostgroups, everything those hosts refer to is written to the
 poller's file, each object once. Bitmaps remember what has been written.
 */
module ObjectSplit {
  import opened Options

  /** A reference that may be missing. */
  type Ref = Option<nat>

  datatype Timeperiod = Timeperiod(exclusions: seq<Ref>)

  datatype Contact = Contact(hostPeriod: Ref, servicePeriod: Ref, hostCommands: seq<Ref>, serviceCommands: seq<Ref>)

  datatype Contactgroup = Contactgroup(members: seq<nat>)

  /** What hosts and services refer to alike. */
  datatype Slaves = Slaves(eventHandler: Ref, checkCommand: Ref, checkPeriod: Ref, notificationPeriod: Ref,
                           contactgroups: seq<nat>, contacts: seq<nat>)

  datatype Dependency = Dependency(masterHost: nat, period: Ref)

  datatype Escalation = Escalation(period: Ref, contactgroups: seq<nat>, contacts: seq<nat>)

  /** The references of a service, and those of the temporary copy that is made of it. */
  datatype Service = Service(slaves: Slaves, copied: Slaves, execDeps: seq<Dependency>, notifyDeps: seq<Dependency>,
                             escalations: seq<Escalation>)

  datatype Host = Host(slaves: Slaves, execDeps: seq<Dependency>, notifyDeps: seq<Dependency>,
                       escalations: seq<Escalation>, services: seq<Service>)

  datatype Config = Config(timeperiods: seq<Timeperiod>, contacts: seq<Contact>, contactgroups: seq<Contactgroup>,
                           hosts: seq<Host>, hostgroups: seq<seq<nat>>, globalCommands: seq<Ref>)

  /** One object in the file. */
  datatype Entry = ACommand(id: nat) | ATimeperiod(id: nat) | AContact(id: nat) | AContactgroup(id: nat) | AHost(id: nat)

  // ---- what refers to what -------------------------------------------------

  ghost predicate InSlaves(r: Slaves, f: Entry) {
    match f
    case ACommand(c) => r.eventHandler == Some(c) || r.checkCommand == Some(c)
    case ATimeperiod(t) => r.checkPeriod == Some(t) || r.notificationPeriod == Some(t)
    case AContactgroup(g) => g in r.contactgroups
    case AContact(c) => c in r.contacts
    case AHost(_) => false
  }

  /** Dependencies count only if the host depended on is selected too. */
  ghost predicate InDeps(deps: seq<Dependency>, selected: set<nat>, f: Entry) {
    f.ATimeperiod? && exists d :: d in deps && d.masterHost in selected && d.period == Some(f.id)
  }

  ghost predicate InEscalation(e: Escalation, f: Entry) {
    match f
    case ATimeperiod(t) => e.period == Some(t)
    case AContactgroup(g) => g in e.contactgroups
    case AContact(c) => c in e.contacts
    case _ => false
  }

  ghost predicate InEscalations(es: seq<Escalation>, f: Entry) { exists e :: e in es && InEscalation(e, f) }

  ghost predicate InService(s: Service, selected: set<nat>, f: Entry) {
    InSlaves(s.slaves, f) || InDeps(s.execDeps, selected, f) || InDeps(s.notifyDeps, selected, f) || InEscalations(s.escalations, f)
  }

  ghost predicate InHost(h: Host, selected: set<nat>, f: Entry) {
    || InSlaves(h.slaves, f) || InDeps(h.execDeps, selected, f) || InDeps(h.notifyDeps, selected, f)
    || InEscalations(h.escalations, f) || exists s :: s in h.services && InService(s, selected, f)
  }

  ghost predicate InContact(c: Contact, f: Entry) {
    match f
    case ACommand(n) => Some(n) in c.hostCommands || Some(n) in c.serviceCommands
    case ATimeperiod(t) => c.hostPeriod == Some(t) || c.servicePeriod == Some(t)
    case _ => false
  }

  /** e refers to f. */
  ghost predicate Points(cfg: Config, selected: set<nat>, e: Entry, f: Entry) {
    match e
    case ACommand(_) => false
    case ATimeperiod(t) => t < |cfg.timeperiods| && f.ATimeperiod? && Some(f.id) in cfg.timeperiods[t].exclusions
    case AContact(c) => c < |cfg.contacts| && InContact(cfg.contacts[c], f)
    case AContactgroup(g) => g < |cfg.contactgroups| && f.AContact? && f.id in cfg.contactgroups[g].members
    case AHost(h) => h < |cfg.hosts| && InHost(cfg.hosts[h], selected, f)
  }

  ghost predicate Root(cfg: Config, selected: set<nat>, e: Entry) {
    (e.ACommand? && Some(e.id) in cfg.globalCommands) || (e.AHost? && e.id in selected)
  }

  /** A chain of references that starts at a selected host or at a global command. */
  ghost predicate Path(cfg: Config, selected: set<nat>, p: seq<Entry>) {
    p != [] && Root(cfg, selected, p[0]) && forall i :: 0 <= i < |p| - 1 ==> Points(cfg, selected, p[i], p[i + 1])
  }

  ghost predicate Reachable(cfg: Config, selected: set<nat>, e: Entry) {
    exists p :: Path(cfg, selected, p) && p[|p| - 1] == e
  }

  /** The object is in the configuration (commands are only ever copied out). */
  ghost predicate Known(cfg: Config, e: Entry) {
    match e
    case ACommand(_) => true
    case ATimeperiod(t) => t < |cfg.timeperiods|
    case AContact(c) => c < |cfg.contacts|
    case AContactgroup(g) => g < |cfg.contactgroups|
    case AHost(h) => h < |cfg.hosts|
  }

  ghost predicate NoMoreRefs(a: Slaves, b: Slaves) { forall f :: InSlaves(a, f) ==> InSlaves(b, f) }

  /** References lead to objects that exist, and a copied service has no references that the original has not. */
  ghost predicate WellFormed(cfg: Config, selected: set<nat>) {
    && (forall e, f :: Known(cfg, e) && Points(cfg, selected, e, f) ==> Known(cfg, f))
    && (forall h, s :: h in cfg.hosts && s in h.services ==> NoMoreRefs(s.copied, s.slaves))
    && (forall h :: h in selected ==> h < |cfg.hosts|)
  }

  lemma RootReached(cfg: Config, selected: set<nat>, e: Entry)
    requires Root(cfg, selected, e)
    ensures Reachable(cfg, selected, e)
  {
    assert Path(cfg, selected, [e]) && [e][|[e]| - 1] == e;
  }

  lemma StepReached(cfg: Config, selected: set<nat>, e: Entry, f: Entry)
    requires Reachable(cfg, selected, e) && Points(cfg, selected, e, f)
    ensures Reachable(cfg, selected, f)
  {
    hide Points, Root;
    var p :| Path(cfg, selected, p) && p[|p| - 1] == e;
    var q := p + [f];
    forall i | 0 <= i < |q| - 1 ensures Points(cfg, selected, q[i], q[i + 1]) {
      if i < |p| - 1 { assert Points(cfg, selected, p[i], p[i + 1]); }
    }
    assert Path(cfg, selected, q) && q[|q| - 1] == f;
  }

  // ---- what has been written -----------------------------------------------

  ghost predicate Unique(out: seq<Entry>) { forall i, j :: 0 <= i < j < |out| ==> out[i] != out[j] }

  ghost predicate Sound(cfg: Config, selected: set<nat>, out: seq<Entry>) {
    forall e :: e in out ==> Reachable(cfg, selected, e)
  }

  /** Everything that is referred to from what has been written, except from what is still open, has been written. */
  ghost predicate Complete(cfg: Config, selected: set<nat>, out: seq<Entry>, open: set<Entry>) {
    forall e, f :: e in out && e !in open && Points(cfg, selected, e, f) ==> f in out
  }

  ghost predicate Written(cfg: Config, selected: set<nat>, out: seq<Entry>, open: set<Entry>) {
    Unique(out) && Sound(cfg, selected, out) && Complete(cfg, selected, out, open)
  }

  lemma Emit(cfg: Config, selected: set<nat>, out: seq<Entry>, open: set<Entry>, e: Entry)
    requires Written(cfg, selected, out, open) && Reachable(cfg, selected, e) && e !in out
    ensures Written(cfg, selected, out + [e], open + {e})
  {
    hide Points, Reachable;
    forall x, f | x in out + [e] && x !in open + {e} && Points(cfg, selected, x, f)
      ensures f in out + [e]
    {
      assert x in out;
    }
  }

  lemma Close(cfg: Config, selected: set<nat>, out: seq<Entry>, open: set<Entry>, e: Entry)
    requires Written(cfg, selected, out, open + {e})
    requires forall f :: Points(cfg, selected, e, f) ==> f in out
    ensures Written(cfg, selected, out, open)
  {
    hide Points, Reachable;
  }

  lemma {:induction false} PathWritten(cfg: Config, selected: set<nat>, out: seq<Entry>, p: seq<Entry>)
    requires Complete(cfg, selected, out, {}) && Path(cfg, selected, p)
    requires forall e :: Root(cfg, selected, e) ==> e in out
    ensures p[|p| - 1] in out
    decreases |p|
  {
    hide Points, Root;
    if |p| > 1 {
      var q := p[..|p| - 1];
      forall i | 0 <= i < |q| - 1 ensures Points(cfg, selected, q[i], q[i + 1]) {
        assert Points(cfg, selected, p[i], p[i + 1]);
      }
      PathWritten(cfg, selected, out, q);
      assert Points(cfg, selected, p[|p| - 2], p[|p| - 2 + 1]);
    }
  }

  /** Once nothing is open and every root is written, exactly the reachable objects are. */
  lemma ExactlyReachable(cfg: Config, selected: set<nat>, out: seq<Entry>)
    requires Written(cfg, selected, out, {}) && forall e :: Root(cfg, selected, e) ==> e in out
    ensures forall e :: e in out <==> Reachable(cfg, selected, e)
  {
    hide Points, Root;
    forall e | Reachable(cfg, selected, e) ensures e in out {
      var p :| Path(cfg, selected, p) && p[|p| - 1] == e;
      PathWritten(cfg, selected, out, p);
    }
  }

  /** Later has all that earlier has, and the same hosts. */
  ghost predicate Extends(earlier: seq<Entry>, later: seq<Entry>) {
    && (forall e :: e in earlier ==> e in later)
    && (forall e :: e in later && e.AHost? ==> e in earlier)
  }

  function Ids(n: nat): (s: set<nat>)
    ensures forall i: nat :: i in s <==> i < n
  {
    if n == 0 then {} else Ids(n - 1) + {n - 1}
  }

  // ---- the traversal -------------------------------------------------------

  class Splitter {
    const cfg: Config
    var hosts: set<nat>
    var htrack: set<nat>
    var commands: set<nat>
    var contactgroups: set<nat>
    var contacts: set<nat>
    var timeperiods: set<nat>
    var out: seq<Entry>

    constructor (cfg: Config)
      ensures this.cfg == cfg
    {
      this.cfg := cfg;
    }

    /** The bitmaps tell what has been written. */
    ghost predicate Marks()
      reads `out, `commands, `timeperiods, `contacts, `contactgroups
    {
      && (forall n :: ACommand(n) in out <==> n in commands)
      && (forall n :: ATimeperiod(n) in out <==> n in timeperiods)
      && (forall n :: AContact(n) in out <==> n in contacts)
      && (forall n :: AContactgroup(n) in out <==> n in contactgroups)
      && (forall n :: n in timeperiods ==> n < |cfg.timeperiods|)
    }

    ghost predicate Valid(open: set<Entry>)
      reads `out, `hosts, `commands, `timeperiods, `contacts, `contactgroups
    {
      Marks() && WellFormed(cfg, hosts) && Written(cfg, hosts, out, open)
    }

    /** nsplit_cache_command. */
    method CacheCommand(cmd: Ref, ghost open: set<Entry>)
      requires Valid(open) && (cmd.Some? ==> Due(cfg, hosts, ACommand(cmd.value)))
      modifies `out, `commands
      ensures Valid(open) && Extends(old(out), out) && (cmd.Some? ==> ACommand(cmd.value) in out)
    {
      hide Reachable, Written, WellFormed;
      if cmd.None? || cmd.value in commands { return; }
      Emit(cfg, hosts, out, open, ACommand(cmd.value));
      Close(cfg, hosts, out + [ACommand(cmd.value)], open, ACommand(cmd.value));
      out := out + [ACommand(cmd.value)];
      commands := commands + {cmd.value};
    }

    method CacheCommands(cmds: seq<Ref>, ghost open: set<Entry>)
      requires Valid(open) && forall n :: Some(n) in cmds ==> Due(cfg, hosts, ACommand(n))
      modifies `out, `commands
      ensures Valid(open) && Extends(old(out), out) && forall n :: Some(n) in cmds ==> ACommand(n) in out
    {
      hide Due, Splitter.Valid;
      for i := 0 to |cmds|
        invariant Valid(open) && Extends(old(out), out) && forall n :: Some(n) in cmds[..i] ==> ACommand(n) in out
      {
        if cmds[i].Some? { assert Some(cmds[i].value) in cmds; }
        CacheCommand(cmds[i], open);
      }
      assert cmds[..|cmds|] == cmds;
    }

    /** nsplit_cache_timeperiod: the exclusions may go round in circles. */
    method CacheTimeperiod(tp: Ref, ghost open: set<Entry>)
      requires Valid(open) && (tp.Some? ==> Due(cfg, hosts, ATimeperiod(tp.value)))
      modifies `out, `timeperiods
      ensures Valid(open) && Extends(old(out), out) && (tp.Some? ==> ATimeperiod(tp.value) in out)
      ensures old(timeperiods) <= timeperiods
      decreases Ids(|cfg.timeperiods|) - timeperiods
    {
      hide Reachable, Written, WellFormed;
      if tp.None? || tp.value in timeperiods { return; }
      var t := tp.value;
      ghost var e := ATimeperiod(t);
      Emit(cfg, hosts, out, open, e);
      timeperiods := timeperiods + {t};
      out := out + [ATimeperiod(t)];
      var exclusions := cfg.timeperiods[t].exclusions;
      for i := 0 to |exclusions|
        invariant Valid(open + {e}) && Extends(old(out), out) && e in out && old(timeperiods) + {t} <= timeperiods
        invariant forall j :: 0 <= j < i && exclusions[j].Some? ==> ATimeperiod(exclusions[j].value) in out
      {
        if exclusions[i].Some? {
          Follow(cfg, hosts, e, ATimeperiod(exclusions[i].value));
        }
        CacheTimeperiod(exclusions[i], open + {e});
      }
      Close(cfg, hosts, out, open, e);
    }

    /** nsplit_cache_hostdependencies and nsplit_cache_servicedependencies. */
    method CacheDependencies(deps: seq<Dependency>, ghost open: set<Entry>)
      requires Valid(open) && forall f :: InDeps(deps, hosts, f) ==> Due(cfg, hosts, f)
      modifies `out, `timeperiods
      ensures Valid(open) && Extends(old(out), out) && forall f :: InDeps(deps, hosts, f) ==> f in out
    {
      hide Due, Splitter.Valid;
      for i := 0 to |deps|
        invariant Valid(open) && Extends(old(out), out) && forall f :: InDeps(deps[..i], hosts, f) ==> f in out
      {
        if deps[i].masterHost in hosts {
          if deps[i].period.Some? { assert InDeps(deps, hosts, ATimeperiod(deps[i].period.value)); }
          CacheTimeperiod(deps[i].period, open);
        }
      }
      assert deps[..|deps|] == deps;
    }

    /** All that a due object refers to is due. */
    lemma AllDue(e: Entry, open: set<Entry>)
      requires Valid(open) && Due(cfg, hosts, e)
      ensures forall f :: Points(cfg, hosts, e, f) ==> Due(cfg, hosts, f)
    {
      hide Points, Due, WellFormed, Written;
      forall f | Points(cfg, hosts, e, f) ensures Due(cfg, hosts, f) {
        Follow(cfg, hosts, e, f);
      }
    }

    lemma MarksHold(open: set<Entry>)
      requires Valid(open)
      ensures Marks()
    {
    }

    /** The end of the loop body of nsplit_cache_contacts: all that the contact refers to has been written. */
    method MarkContact(c: nat, ghost open: set<Entry>)
      requires Valid(open) && Due(cfg, hosts, AContact(c)) && c !in contacts
      requires forall f :: Points(cfg, hosts, AContact(c), f) ==> f in out
      modifies `out, `contacts
      ensures Valid(open) && Extends(old(out), out) && AContact(c) in out
    {
      hide Reachable, Written, WellFormed, Points;
      Emit(cfg, hosts, out, open, AContact(c));
      Close(cfg, hosts, out + [AContact(c)], open, AContact(c));
      contacts := contacts + {c};
      out := out + [AContact(c)];
    }

    /** The loop body of nsplit_cache_contacts. */
    method CacheContact(c: nat, ghost open: set<Entry>)
      requires Valid(open) && Due(cfg, hosts, AContact(c))
      modifies `out, `timeperiods, `commands, `contacts
      ensures Valid(open) && Extends(old(out), out) && AContact(c) in out
    {
      hide Reachable, Splitter.Valid;
      MarksHold(open);
      if c in contacts { return; }
      AllDue(AContact(c), open);
      var contact := cfg.contacts[c];
      CacheTimeperiod(contact.hostPeriod, open);
      CacheTimeperiod(contact.servicePeriod, open);
      CacheCommands(contact.hostCommands, open);
      CacheCommands(contact.serviceCommands, open);
      MarkContact(c, open);
    }

    /** nsplit_cache_contacts. */
    method CacheContacts(list: seq<nat>, ghost open: set<Entry>)
      requires Valid(open) && forall c :: c in list ==> Due(cfg, hosts, AContact(c))
      modifies `out, `timeperiods, `commands, `contacts
      ensures Valid(open) && Extends(old(out), out) && forall c :: c in list ==> AContact(c) in out
    {
      hide Due, Splitter.Valid;
      for i := 0 to |list|
        invariant Valid(open) && Extends(old(out), out) && forall j :: 0 <= j < i ==> AContact(list[j]) in out
      {
        CacheContact(list[i], open);
      }
    }

    method MarkContactgroup(g: nat, ghost open: set<Entry>)
      requires Valid(open) && Due(cfg, hosts, AContactgroup(g)) && g !in contactgroups
      requires forall f :: Points(cfg, hosts, AContactgroup(g), f) ==> f in out
      modifies `out, `contactgroups
      ensures Valid(open) && Extends(old(out), out) && AContactgroup(g) in out
    {
      hide Reachable, Written, WellFormed, Points;
      Emit(cfg, hosts, out, open, AContactgroup(g));
      Close(cfg, hosts, out + [AContactgroup(g)], open, AContactgroup(g));
      contactgroups := contactgroups + {g};
      out := out + [AContactgroup(g)];
    }

    method CacheContactgroup(g: nat, ghost open: set<Entry>)
      requires Valid(open) && Due(cfg, hosts, AContactgroup(g))
      modifies `out, `timeperiods, `commands, `contacts, `contactgroups
      ensures Valid(open) && Extends(old(out), out) && AContactgroup(g) in out
    {
      hide Reachable, Splitter.Valid;
      MarksHold(open);
      if g in contactgroups { return; }
      AllDue(AContactgroup(g), open);
      CacheContacts(cfg.contactgroups[g].members, open);
      MarkContactgroup(g, open);
    }

    /** nsplit_cache_contactgroups. */
    method CacheContactgroups(list: seq<nat>, ghost open: set<Entry>)
      requires Valid(open) && forall g :: g in list ==> Due(cfg, hosts, AContactgroup(g))
      modifies `out, `timeperiods, `commands, `contacts, `contactgroups
      ensures Valid(open) && Extends(old(out), out) && forall g :: g in list ==> AContactgroup(g) in out
    {
      hide Due, Splitter.Valid;
      for i := 0 to |list|
        invariant Valid(open) && Extends(old(out), out) && forall j :: 0 <= j < i ==> AContactgroup(list[j]) in out
      {
        CacheContactgroup(list[i], open);
      }
    }

    /** nsplit_cache_slaves. */
    method CacheSlaves(r: Slaves, ghost open: set<Entry>)
      requires Valid(open) && forall f :: InSlaves(r, f) ==> Due(cfg, hosts, f)
      modifies `out, `timeperiods, `commands, `contacts, `contactgroups
      ensures Valid(open) && Extends(old(out), out) && forall f :: InSlaves(r, f) ==> f in out
    {
      hide Due, Splitter.Valid;
      CacheCommand(r.eventHandler, open);
      CacheCommand(r.checkCommand, open);
      CacheTimeperiod(r.checkPeriod, open);
      CacheTimeperiod(r.notificationPeriod, open);
      CacheContactgroups(r.contactgroups, open);
      CacheContacts(r.contacts, open);
    }

    method CacheEscalation(e: Escalation, ghost open: set<Entry>)
      requires Valid(open) && forall f :: InEscalation(e, f) ==> Due(cfg, hosts, f)
      modifies `out, `timeperiods, `commands, `contacts, `contactgroups
      ensures Valid(open) && Extends(old(out), out) && forall f :: InEscalation(e, f) ==> f in out
    {
      hide Due, Splitter.Valid;
      CacheTimeperiod(e.period, open);
      CacheContactgroups(e.contactgroups, open);
      CacheContacts(e.contacts, open);
    }

    method CacheEscalations(es: seq<Escalation>, ghost open: set<Entry>)
      requires Valid(open) && forall f :: InEscalations(es, f) ==> Due(cfg, hosts, f)
      modifies `out, `timeperiods, `commands, `contacts, `contactgroups
      ensures Valid(open) && Extends(old(out), out) && forall f :: InEscalations(es, f) ==> f in out
    {
      hide Due, Splitter.Valid, InEscalation;
      for i := 0 to |es|
        invariant Valid(open) && Extends(old(out), out)
        invariant forall j, f :: 0 <= j < i && InEscalation(es[j], f) ==> f in out
      {
        CacheEscalation(es[i], open);
      }
    }

    /** The loop body of nsplit_cache_host for one service. */
    method CacheService(s: Service, ghost open: set<Entry>)
      requires Valid(open) && NoMoreRefs(s.copied, s.slaves) && forall f :: InService(s, hosts, f) ==> Due(cfg, hosts, f)
      modifies `out, `timeperiods, `commands, `contacts, `contactgroups
      ensures Valid(open) && Extends(old(out), out) && forall f :: InService(s, hosts, f) ==> f in out
    {
      hide Due, Splitter.Valid, InSlaves, InDeps, InEscalations;
      CacheSlaves(s.copied, open);
      CacheSlaves(s.slaves, open);
      CacheDependencies(s.execDeps, open);
      CacheDependencies(s.notifyDeps, open);
      CacheEscalations(s.escalations, open);
    }

    method CacheServices(services: seq<Service>, ghost open: set<Entry>)
      requires Valid(open) && forall s, f :: s in services && InService(s, hosts, f) ==> Due(cfg, hosts, f)
      requires forall s :: s in services ==> NoMoreRefs(s.copied, s.slaves)
      modifies `out, `timeperiods, `commands, `contacts, `contactgroups
      ensures Valid(open) && Extends(old(out), out) && forall s, f :: s in services && InService(s, hosts, f) ==> f in out
    {
      hide Due, Splitter.Valid, InService, NoMoreRefs;
      for i := 0 to |services|
        invariant Valid(open) && Extends(old(out), out)
        invariant forall j, f :: 0 <= j < i && InService(services[j], hosts, f) ==> f in out
      {
        CacheService(services[i], open);
      }
    }

    /** What comes after the host itself has been written. */
    method CacheHostRest(h: Host, ghost open: set<Entry>)
      requires Valid(open) && forall f :: InHost(h, hosts, f) ==> Due(cfg, hosts, f)
      requires (forall s :: s in h.services ==> NoMoreRefs(s.copied, s.slaves)) && forall f :: InSlaves(h.slaves, f) ==> f in out
      modifies `out, `timeperiods, `commands, `contacts, `contactgroups
      ensures Valid(open) && Extends(old(out), out) && forall f :: InHost(h, hosts, f) ==> f in out
    {
      hide Due, Splitter.Valid, InSlaves, InDeps, InEscalations, InService, NoMoreRefs;
      CacheDependencies(h.execDeps, open);
      CacheDependencies(h.notifyDeps, open);
      CacheEscalations(h.escalations, open);
      CacheServices(h.services, open);
    }

    /** fcache_host. */
    method WriteHost(h: nat, ghost open: set<Entry>)
      requires Valid(open) && Due(cfg, hosts, AHost(h)) && AHost(h) !in out
      modifies `out
      ensures Valid(open + {AHost(h)}) && out == old(out) + [AHost(h)]
    {
      hide Reachable, Written, WellFormed, Points;
      Emit(cfg, hosts, out, open, AHost(h));
      out := out + [AHost(h)];
    }

    lemma CopiesHold(h: nat, open: set<Entry>)
      requires Valid(open) && h < |cfg.hosts|
      ensures forall s :: s in cfg.hosts[h].services ==> NoMoreRefs(s.copied, s.slaves)
    {
      hide Written, Points, NoMoreRefs;
      assert cfg.hosts[h] in cfg.hosts;
    }

    lemma CloseHost(h: nat)
      requires h < |cfg.hosts| && Valid({AHost(h)}) && forall f :: InHost(cfg.hosts[h], hosts, f) ==> f in out
      ensures Valid({})
    {
      hide Written, WellFormed, InHost;
      assert {} + {AHost(h)} == {AHost(h)};
      Close(cfg, hosts, out, {}, AHost(h));
    }

    /** nsplit_cache_host. */
    method CacheHost(h: nat)
      requires Valid({}) && Due(cfg, hosts, AHost(h)) && forall n :: AHost(n) in out <==> n in htrack
      modifies `out, `htrack, `timeperiods, `commands, `contacts, `contactgroups
      ensures Valid({}) && (forall n :: AHost(n) in out <==> n in htrack) && htrack == old(htrack) + {h}
      ensures forall e :: e in old(out) ==> e in out
    {
      hide Reachable, Splitter.Valid, InHost, InSlaves, NoMoreRefs;
      if h in htrack { return; }
      htrack := htrack + {h};
      var host := cfg.hosts[h];
      AllDue(AHost(h), {});
      SlavesOfHost(host, hosts);
      CacheSlaves(host.slaves, {});
      WriteHost(h, {});
      assert {} + {AHost(h)} == {AHost(h)};
      CopiesHold(h, {AHost(h)});
      CacheHostRest(host, {AHost(h)});
      CloseHost(h);
    }

    /** The bitmaps are cleared and a new file begun. */
    method Clear()
      modifies this
      ensures hosts == {} && htrack == {} && out == [] && Marks()
    {
      hosts, htrack, commands, contactgroups, contacts, timeperiods := {}, {}, {}, {}, {}, {};
      out := [];
    }

    /** The global commands, which every poller gets. */
    method CacheGlobals()
      requires Marks() && out == [] && htrack == {}
      modifies `out, `commands
      ensures Marks() && Unique(out) && htrack == {}
      ensures forall e :: e in out <==> GlobalCommand(cfg, e)
    {
      for i := 0 to |cfg.globalCommands|
        invariant Marks() && Unique(out) && forall e :: e in out <==> e.ACommand? && Some(e.id) in cfg.globalCommands[..i]
      {
        var cmd := cfg.globalCommands[i];
        if cmd.Some? && cmd.value !in commands {
          out := out + [ACommand(cmd.value)];
          commands := commands + {cmd.value};
        }
      }
      assert cfg.globalCommands[..|cfg.globalCommands|] == cfg.globalCommands;
    }

    /** The first loop of nsplit_cache_stuff: tag the hosts of every named hostgroup, if there is such a group. */
    method MapGroups(groups: seq<Ref>) returns (ok: bool)
      requires hosts == {} && forall g :: Some(g) in groups ==> g < |cfg.hostgroups|
      modifies `hosts
      ensures ok <==> None !in groups
      ensures ok ==> hosts == Selected(cfg, groups)
    {
      for i := 0 to |groups|
        invariant None !in groups[..i] && hosts == Selected(cfg, groups[..i])
      {
        if groups[i].None? { return false; }
        assert Some(groups[i].value) in groups;
        var members := cfg.hostgroups[groups[i].value];
        var before := hosts;
        for j := 0 to |members|
          invariant hosts == before + set h | h in members[..j]
        {
          hosts := hosts + {members[j]};
        }
        assert members[..|members|] == members;
        assert groups[..i + 1][..i] == groups[..i];
      }
      assert groups[..|groups|] == groups;
      return true;
    }

    /** The second loop: by now all the hosts are tagged. */
    method CacheGroups(groups: seq<Ref>)
      requires None !in groups && (forall g :: Some(g) in groups ==> g < |cfg.hostgroups|) && hosts == Selected(cfg, groups)
      requires Valid({}) && (forall n :: AHost(n) in out <==> n in htrack) && htrack == {}
      modifies `out, `htrack, `timeperiods, `commands, `contacts, `contactgroups
      ensures Valid({}) && (forall n :: AHost(n) in out <==> n in hosts) && forall e :: e in old(out) ==> e in out
    {
      hide Splitter.Valid, Due;
      for i := 0 to |groups|
        invariant Valid({}) && (forall n :: AHost(n) in out <==> n in htrack) && htrack == Selected(cfg, groups[..i])
        invariant forall e :: e in old(out) ==> e in out
      {
        assert groups[i] in groups && Some(groups[i].value) in groups;
        CacheGroup(groups, groups[i].value);
        assert groups[..i + 1][..i] == groups[..i];
      }
      assert groups[..|groups|] == groups;
    }

    method CacheGroup(ghost groups: seq<Ref>, g: nat)
      requires (forall g :: Some(g) in groups ==> g < |cfg.hostgroups|) && hosts == Selected(cfg, groups) && Some(g) in groups
      requires Valid({}) && forall n :: AHost(n) in out <==> n in htrack
      modifies `out, `htrack, `timeperiods, `commands, `contacts, `contactgroups
      ensures Valid({}) && (forall n :: AHost(n) in out <==> n in htrack) && forall e :: e in old(out) ==> e in out
      ensures htrack == old(htrack) + set h | h in cfg.hostgroups[g]
    {
      hide Splitter.Valid, Due, Selected;
      var members := cfg.hostgroups[g];
      for j := 0 to |members|
        invariant Valid({}) && (forall n :: AHost(n) in out <==> n in htrack) && forall e :: e in old(out) ==> e in out
        invariant htrack == old(htrack) + set h | h in members[..j]
      {
        SelectedMember(cfg, groups, g, members[j]);
        HostDue(members[j]);
        CacheHost(members[j]);
      }
      assert members[..|members|] == members;
    }

    lemma HostDue(h: nat)
      requires Valid({}) && h in hosts
      ensures Due(cfg, hosts, AHost(h))
    {
      hide Written, Points, Reachable;
      RootReached(cfg, hosts, AHost(h));
    }

    lemma StartWritten()
      requires Marks() && Unique(out) && WellFormed(cfg, hosts) && forall e :: e in out <==> GlobalCommand(cfg, e)
      ensures Valid({})
    {
      hide WellFormed, Reachable;
      forall e | e in out ensures Reachable(cfg, hosts, e) {
        RootReached(cfg, hosts, e);
      }
    }

    /** nsplit_cache_stuff: 1 without hostgroups, -1 for an unknown one, else 0. */
    method CacheStuff(groups: Option<seq<Ref>>) returns (code: int)
      requires Marks() && Unique(out) && hosts == {} && htrack == {} && forall e :: e in out <==> GlobalCommand(cfg, e)
      requires groups.Some? ==> KnownGroups(cfg, groups.value)
      modifies `hosts, `out, `htrack, `timeperiods, `commands, `contacts, `contactgroups
      ensures Unique(out) && code == if groups.None? then 1 else if None in groups.value then -1 else 0
      ensures code == 0 ==> forall e :: e in out <==> Reachable(cfg, Selected(cfg, groups.value), e)
      ensures code != 0 ==> out == old(out)
    {
      hide Splitter.Marks, WellFormed, Reachable, Unique;
      if groups.None? { return 1; }
      var ok := MapGroups(groups.value);
      if !ok { return -1; }
      StartWritten();
      CacheGroups(groups.value);
      Finish();
      return 0;
    }

    lemma Finish()
      requires Valid({}) && (forall n :: AHost(n) in out <==> n in hosts) && forall e :: GlobalCommand(cfg, e) ==> e in out
      ensures Unique(out) && forall e :: e in out <==> Reachable(cfg, hosts, e)
    {
      hide Reachable;
      ExactlyReachable(cfg, hosts, out);
    }
  }

  ghost predicate GlobalCommand(cfg: Config, e: Entry) { e.ACommand? && Some(e.id) in cfg.globalCommands }

  /** The hosts of all these groups. */
  function Selected(cfg: Config, groups: seq<Ref>): set<nat>
    requires forall g :: Some(g) in groups ==> g < |cfg.hostgroups|
  {
    if groups == [] then {}
    else
      var last := groups[|groups| - 1];
      Selected(cfg, groups[..|groups| - 1]) +
      if last.None? then {} else assert Some(last.value) in groups; set h | h in cfg.hostgroups[last.value]
  }

  lemma {:induction false} SelectedMember(cfg: Config, groups: seq<Ref>, g: nat, h: nat)
    requires (forall g :: Some(g) in groups ==> g < |cfg.hostgroups|) && Some(g) in groups && h in cfg.hostgroups[g]
    ensures h in Selected(cfg, groups)
  {
    if groups[|groups| - 1] != Some(g) {
      SelectedMember(cfg, groups[..|groups| - 1], g, h);
    }
  }

  /** The groups that are found exist, and what their hosts refer to does too. */
  ghost predicate KnownGroups(cfg: Config, groups: seq<Ref>) {
    (forall g :: Some(g) in groups ==> g < |cfg.hostgroups|) && WellFormed(cfg, Selected(cfg, groups))
  }

  /**
   split_config: for every poller, the new content of its file, or None if its
   file stays as it was. A poller without hostgroups gets the global commands;
   one with hostgroups gets exactly the objects that can be reached from their
   hosts and from the global commands, each of them once.
   */
  method SplitConfig(cfg: Config, pollers: seq<Option<seq<Ref>>>) returns (files: seq<Option<seq<Entry>>>)
    requires forall i :: 0 <= i < |pollers| && pollers[i].Some? ==> KnownGroups(cfg, pollers[i].value)
    ensures |files| == |pollers|
    ensures forall i :: 0 <= i < |files| ==> FileOf(cfg, pollers[i], files[i])
  {
    hide FileOf, KnownGroups;
    files := [];
    var splitter := new Splitter(cfg);
    for i := 0 to |pollers|
      invariant |files| == i && forall j :: 0 <= j < i ==> FileOf(cfg, pollers[j], files[j])
    {
      var file := SplitPoller(splitter, pollers[i]);
      files := files + [file];
    }
  }

  ghost predicate FileOf(cfg: Config, groups: Option<seq<Ref>>, file: Option<seq<Entry>>)
    requires groups.Some? ==> KnownGroups(cfg, groups.value)
  {
    && (file.None? <==> groups.Some? && None in groups.value)
    && (file.Some? ==> Unique(file.value))
    && (file.Some? && groups.None? ==> forall e :: e in file.value <==> GlobalCommand(cfg, e))
    && (file.Some? && groups.Some? ==> forall e :: e in file.value <==> Reachable(cfg, Selected(cfg, groups.value), e))
  }

  method SplitPoller(splitter: Splitter, groups: Option<seq<Ref>>) returns (file: Option<seq<Entry>>)
    requires groups.Some? ==> KnownGroups(splitter.cfg, groups.value)
    modifies splitter
    ensures FileOf(splitter.cfg, groups, file)
  {
    hide Splitter.Marks, KnownGroups, Reachable, Unique;
    splitter.Clear();
    splitter.CacheGlobals();
    var code := splitter.CacheStuff(groups);
    return if code < 0 then None else Some(splitter.out);
  }

  lemma SlavesOfHost(h: Host, selected: set<nat>)
    ensures forall f :: InSlaves(h.slaves, f) ==> InHost(h, selected, f)
  {
  }

  /** An object that is there and that is to be written. */
  ghost predicate Due(cfg: Config, selected: set<nat>, f: Entry) {
    Known(cfg, f) && Reachable(cfg, selected, f)
  }

  /** What a known, reachable object refers to is known and reachable. */
  lemma Follow(cfg: Config, selected: set<nat>, e: Entry, f: Entry)
    requires WellFormed(cfg, selected) && Due(cfg, selected, e) && Points(cfg, selected, e, f)
    ensures Due(cfg, selected, f)
  {
    hide Points, Reachable;
    StepReached(cfg, selected, e, f);
  }

  // ---- what the files have, field by field ---------------------------------

  function Commands(refs: seq<Ref>): set<Entry> { set r | r in refs && r.Some? :: ACommand(r.value) }

  function Periods(refs: seq<Ref>): set<Entry> { set r | r in refs && r.Some? :: ATimeperiod(r.value) }

  function Groups(ids: seq<nat>): set<Entry> { set g | g in ids :: AContactgroup(g) }

  function People(ids: seq<nat>): set<Entry> { set c | c in ids :: AContact(c) }

  /** What a host or service names itself. */
  function SlaveNames(r: Slaves): set<Entry> {
    Commands([r.eventHandler, r.checkCommand]) + Periods([r.checkPeriod, r.notificationPeriod])
    + Groups(r.contactgroups) + People(r.contacts)
  }

  /** The periods of dependencies on selected hosts. */
  function DependencyNames(deps: seq<Dependency>, selected: set<nat>): set<Entry> {
    set d | d in deps && d.masterHost in selected && d.period.Some? :: ATimeperiod(d.period.value)
  }

  function EscalationNames(es: seq<Escalation>): set<Entry> {
    (set e | e in es && e.period.Some? :: ATimeperiod(e.period.value))
    + (set e, g | e in es && g in e.contactgroups :: AContactgroup(g)) + (set e, c | e in es && c in e.contacts :: AContact(c))
  }

  function ServiceNames(s: Service, selected: set<nat>): set<Entry> {
    SlaveNames(s.slaves) + DependencyNames(s.execDeps + s.notifyDeps, selected) + EscalationNames(s.escalations)
  }

  function HostNames(h: Host, selected: set<nat>): set<Entry> {
    SlaveNames(h.slaves) + DependencyNames(h.execDeps + h.notifyDeps, selected) + EscalationNames(h.escalations)
    + set s, f | s in h.services && f in ServiceNames(s, selected) :: f
  }

  /** All that an object names in any of its fields. */
  function Names(cfg: Config, selected: set<nat>, e: Entry): set<Entry> {
    match e
    case ACommand(_) => {}
    case ATimeperiod(t) => if t < |cfg.timeperiods| then Periods(cfg.timeperiods[t].exclusions) else {}
    case AContact(c) =>
      if c >= |cfg.contacts| then {}
      else
        var p := cfg.contacts[c];
        Periods([p.hostPeriod, p.servicePeriod]) + Commands(p.hostCommands + p.serviceCommands)
    case AContactgroup(g) => if g < |cfg.contactgroups| then People(cfg.contactgroups[g].members) else {}
    case AHost(h) => if h < |cfg.hosts| then HostNames(cfg.hosts[h], selected) else {}
  }

  lemma SlavesNamed(r: Slaves, f: Entry)
    ensures InSlaves(r, f) <==> f in SlaveNames(r)
  {
  }

  lemma DependenciesNamed(a: seq<Dependency>, b: seq<Dependency>, selected: set<nat>, f: Entry)
    ensures InDeps(a, selected, f) || InDeps(b, selected, f) <==> f in DependencyNames(a + b, selected)
  {
  }

  lemma EscalationsNamed(es: seq<Escalation>, f: Entry)
    ensures InEscalations(es, f) <==> f in EscalationNames(es)
  {
  }

  lemma ServiceNamed(s: Service, selected: set<nat>, f: Entry)
    ensures InService(s, selected, f) <==> f in ServiceNames(s, selected)
  {
    hide InSlaves, InDeps, InEscalations, SlaveNames, DependencyNames, EscalationNames;
    SlavesNamed(s.slaves, f);
    DependenciesNamed(s.execDeps, s.notifyDeps, selected, f);
    EscalationsNamed(s.escalations, f);
  }

  lemma HostNamed(h: Host, selected: set<nat>, f: Entry)
    ensures InHost(h, selected, f) <==> f in HostNames(h, selected)
  {
    hide InSlaves, InDeps, InEscalations, SlaveNames, DependencyNames, EscalationNames, InService, ServiceNames;
    SlavesNamed(h.slaves, f);
    DependenciesNamed(h.execDeps, h.notifyDeps, selected, f);
    EscalationsNamed(h.escalations, f);
    forall s | s in h.services ensures InService(s, selected, f) <==> f in ServiceNames(s, selected) {
      ServiceNamed(s, selected, f);
    }
  }

  lemma PointsNamed(cfg: Config, selected: set<nat>, e: Entry, f: Entry)
    ensures Points(cfg, selected, e, f) <==> f in Names(cfg, selected, e)
  {
    hide InHost, HostNames;
    if e.AHost? && e.id < |cfg.hosts| { HostNamed(cfg.hosts[e.id], selected, f); }
  }

  /** The hosts of a poller are those of any of its groups. */
  lemma {:induction false} SelectedIff(cfg: Config, groups: seq<Ref>, h: nat)
    requires forall g :: Some(g) in groups ==> g < |cfg.hostgroups|
    ensures h in Selected(cfg, groups) <==> exists g :: Some(g) in groups && h in cfg.hostgroups[g]
  {
    if groups != [] {
      var n := |groups| - 1;
      SelectedIff(cfg, groups[..n], h);
      assert groups == groups[..n] + [groups[n]];
      assert forall g :: Some(g) in groups <==> Some(g) in groups[..n] || Some(g) == groups[n];
    }
  }

  /**
   A poller's file has its hosts and the global commands, all that anything in
   it names in any field, and nothing but what one of these reasons accounts for.
   */
  lemma FileHas(cfg: Config, groups: seq<Ref>, file: seq<Entry>)
    requires KnownGroups(cfg, groups) && FileOf(cfg, Some(groups), Some(file))
    ensures forall h :: AHost(h) in file <==> h in Selected(cfg, groups)
    ensures forall n :: Some(n) in cfg.globalCommands ==> ACommand(n) in file
    ensures forall e, f :: e in file && f in Names(cfg, Selected(cfg, groups), e) ==> f in file
    ensures forall f :: f in file && !f.AHost? ==>
              (f.ACommand? && Some(f.id) in cfg.globalCommands)
              || exists e :: e in file && f in Names(cfg, Selected(cfg, groups), e)
  {
    hide Reachable, Points, Names, WellFormed;
    var selected := Selected(cfg, groups);
    forall h ensures AHost(h) in file <==> h in selected { HostReached(cfg, selected, h); }
    forall n | Some(n) in cfg.globalCommands ensures ACommand(n) in file { RootReached(cfg, selected, ACommand(n)); }
    forall e, f | e in file && f in Names(cfg, selected, e) ensures f in file {
      PointsNamed(cfg, selected, e, f);
      StepReached(cfg, selected, e, f);
    }
    forall f | f in file && !f.AHost? && !(f.ACommand? && Some(f.id) in cfg.globalCommands)
      ensures exists e :: e in file && f in Names(cfg, selected, e)
    {
      var e := ReachedFrom(cfg, selected, f);
      PointsNamed(cfg, selected, e, f);
    }
  }

  /** What is reached is a root, or named by something that is. */
  lemma ReachedFrom(cfg: Config, selected: set<nat>, f: Entry) returns (e: Entry)
    requires Reachable(cfg, selected, f) && !Root(cfg, selected, f)
    ensures Reachable(cfg, selected, e) && Points(cfg, selected, e, f)
  {
    hide Points, Root;
    var p :| Path(cfg, selected, p) && p[|p| - 1] == f;
    var q := p[..|p| - 1];
    e := p[|p| - 2];
    assert Points(cfg, selected, p[|p| - 2], p[|p| - 2 + 1]);
    forall i | 0 <= i < |q| - 1 ensures Points(cfg, selected, q[i], q[i + 1]) {
      assert Points(cfg, selected, p[i], p[i + 1]);
    }
    assert Path(cfg, selected, q) && q[|q| - 1] == e;
  }

  lemma HostReached(cfg: Config, selected: set<nat>, h: nat)
    ensures Reachable(cfg, selected, AHost(h)) <==> h in selected
  {
    hide Reachable, Points;
    if h in selected {
      RootReached(cfg, selected, AHost(h));
    } else if Reachable(cfg, selected, AHost(h)) {
      var e := ReachedFrom(cfg, selected, AHost(h));
      NoHostNamed(cfg, selected, e, h);
    }
  }

  lemma NoHostNamed(cfg: Config, selected: set<nat>, e: Entry, h: nat)
    ensures !Points(cfg, selected, e, AHost(h))
  {
  }
}
