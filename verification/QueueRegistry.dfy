/** The server's dictionary of queues: creating a queue together with its dead-letter queue, deleting, saving the
    list of persistent queues and loading it again. */
module QueueRegistry {
  import opened Messages
  import opened RetryLoop

  /** `initialized` says that the database (if any) was opened, `started` that the delivery thread runs. */
  datatype Entry = Entry(cfg: Config, initialized: bool, started: bool)

  /** The dictionary in memory and the saved list of persistent queues, both by lower-case name. */
  datatype Registry = Registry(queues: map<string, Entry>, saved: map<string, Config>)

  /** What creating or loading depends on: is a persistence path configured, can the queue's database be opened,
      and can the list be saved at the end of creating that queue. */
  datatype Env = Env(hasPath: bool, opens: string -> bool, saves: string -> bool)

  datatype Created = Created(registry: Registry, ok: bool)

  // ---------- names ----------

  function LowerChar(c: char): char {
    if 'A' <= c <= 'Z' then c - 'A' + 'a' else c
  }

  function Key(name: string): (key: string)
    ensures |key| == |name| && forall i :: 0 <= i < |name| ==> key[i] == LowerChar(name[i])
  {
    seq(|name|, i requires 0 <= i < |name| => LowerChar(name[i]))
  }

  /** Two names are the same queue exactly if they differ in nothing but the case of letters. */
  lemma KeyIgnoresCase(a: string, b: string)
    ensures Key(a) == Key(b) <==>
              |a| == |b| && forall i :: 0 <= i < |a| ==>
                || a[i] == b[i]
                || ('A' <= a[i] <= 'Z' && b[i] as int == a[i] as int + 32)
                || ('a' <= a[i] <= 'z' && b[i] as int == a[i] as int - 32)
  {
    if Key(a) == Key(b) {
      forall i | 0 <= i < |a| ensures LowerChar(a[i]) == LowerChar(b[i]) {
        assert Key(a)[i] == Key(b)[i];
      }
    }
  }

  const DLQ_SUFFIX := ".dlq"

  predicate IsDlqKey(key: string) {
    |key| >= |DLQ_SUFFIX| && key[|key| - |DLQ_SUFFIX|..] == DLQ_SUFFIX
  }

  lemma DlqKey(name: string)
    ensures Key(name + DLQ_SUFFIX) == Key(name) + DLQ_SUFFIX && IsDlqKey(Key(name + DLQ_SUFFIX))
  {
    assert Key(name + DLQ_SUFFIX) == Key(name) + DLQ_SUFFIX;
  }

  lemma DlqKeyInjective(a: string, b: string)
    requires a + DLQ_SUFFIX == b + DLQ_SUFFIX
    ensures a == b
  {
    assert a == (a + DLQ_SUFFIX)[..|a + DLQ_SUFFIX| - |DLQ_SUFFIX|];
    assert b == (b + DLQ_SUFFIX)[..|b + DLQ_SUFFIX| - |DLQ_SUFFIX|];
  }

  // ---------- creating and deleting ----------

  predicate Opens(cfg: Config, env: Env) {
    cfg.persistence == Ephemeral || env.opens(cfg.name)
  }

  function PersistentOnes(queues: map<string, Entry>): map<string, Config> {
    map k | k in queues && queues[k].cfg.persistence == Persistent :: queues[k].cfg
  }

  function Checkpointed(reg: Registry, env: Env): Registry {
    if env.hasPath then reg.(saved := PersistentOnes(reg.queues)) else reg
  }

  function WithQueue(reg: Registry, key: string, entry: Entry): Registry {
    reg.(queues := reg.queues[key := entry])
  }

  /** Everything after the checks: the queue is published, then its dead-letter queue is created, then the list is
      saved; if one of the last two fails, the queue (but nothing else) is taken back. */
  function CreateInternal(reg: Registry, cfg: Config, env: Env): Created
    decreases cfg.dlq.Some?
  {
    var key := Key(cfg.name);
    if cfg.name == "" then Created(reg, false)
    else if key in reg.queues then Created(reg, true)
    else if (cfg.persistence == Persistent && !env.hasPath) || !Opens(cfg, env) then Created(reg, false)
    else
      var published := WithQueue(reg, key, Entry(cfg, true, false));
      var inner := if cfg.dlq.Some? then CreateInternal(published, cfg.dlq.value.ToConfiguration(cfg.name), env)
                   else Created(published, true);
      if !inner.ok || (env.hasPath && !env.saves(cfg.name))
      then Created(inner.registry.(queues := inner.registry.queues - {key}), false)
      else Created(WithQueue(Checkpointed(inner.registry, env), key, Entry(cfg, true, true)), true)
  }

  predicate Creatable(cfg: Config) {
    !cfg.isDeadLetter && !IsDlqKey(Key(cfg.name))
  }

  function Create(reg: Registry, cfg: Config, env: Env): Created {
    if Creatable(cfg) then CreateInternal(reg, cfg, env) else Created(reg, false)
  }

  /** Deletes that queue only; its dead-letter queue stays, and a dead-letter queue can be deleted by its name. The
      queue is gone even if saving the list then fails. */
  function Deleted(reg: Registry, name: string, env: Env): Registry {
    if Key(name) !in reg.queues then reg
    else
      var without := reg.(queues := reg.queues - {Key(name)});
      if env.saves(name) then Checkpointed(without, env) else without
  }

  /** Dead-letter configurations, and names that end like those of dead-letter queues in whatever case, are refused
      without any effect. */
  lemma CreateRefuses(reg: Registry, cfg: Config, env: Env)
    requires cfg.isDeadLetter || (|cfg.name| >= 4 && Key(cfg.name[|cfg.name| - 4..]) == ".dlq")
    ensures Create(reg, cfg, env) == Created(reg, false)
  {
    if !cfg.isDeadLetter {
      assert Key(cfg.name)[|cfg.name| - 4..] == Key(cfg.name[|cfg.name| - 4..]);
    }
  }

  /** A deletion takes that queue only, and it takes it off the saved list exactly if the list can be saved: a
      persistent queue whose deletion could not be saved comes back at the next start. */
  lemma DeletedExact(reg: Registry, name: string, env: Env)
    requires SavedMirrors(reg)
    ensures var after := Deleted(reg, name, env);
      && after.queues == reg.queues - {Key(name)}
      && (Key(name) in after.saved <==> Key(name) in reg.saved && !(env.hasPath && env.saves(name)))
      && (forall k :: k != Key(name) ==>
            (k in after.saved <==> k in reg.saved) && (k in reg.saved ==> after.saved[k] == reg.saved[k]))
  {
  }

  /** The saved list is exactly the persistent queues with their configurations. */
  ghost predicate SavedMirrors(reg: Registry) {
    && (forall k :: k in reg.saved <==> k in reg.queues && reg.queues[k].cfg.persistence == Persistent)
    && (forall k :: k in reg.saved && k in reg.queues ==> reg.saved[k] == reg.queues[k].cfg)
  }

  /** With a path and a disk that takes every save it stays so, whatever is created, fails to be, or is deleted. */
  lemma {:induction false} SavedMirrorsRuns(reg: Registry, rs: seq<(Request, Env)>)
    requires SavedMirrors(reg)
    requires forall i :: 0 <= i < |rs| ==> rs[i].1.hasPath && forall n :: rs[i].1.saves(n)
    ensures SavedMirrors(AllServed(reg, rs))
    decreases |rs|
  {
    if rs != [] {
      var r, env := rs[0].0, rs[0].1;
      if r.CreateQueue? && Creatable(r.cfg) {
        CreateMirrors(reg, r.cfg, env);
      }
      assert forall i :: 0 <= i < |rs[1..]| ==> rs[1..][i] == rs[i + 1];
      SavedMirrorsRuns(Served(reg, r, env), rs[1..]);
    }
  }

  lemma CreateMirrors(reg: Registry, cfg: Config, env: Env)
    requires SavedMirrors(reg) && env.hasPath && forall n :: env.saves(n)
    ensures SavedMirrors(CreateInternal(reg, cfg, env).registry)
  {
    var key := Key(cfg.name);
    var published := WithQueue(reg, key, Entry(cfg, true, false));
    if key !in reg.queues {
      assert published.queues - {key} == reg.queues;
      if cfg.dlq.Some? {
        CreateDlq(published, cfg.dlq.value, cfg.name, env);
        SuffixGrows(key);
      }
      CreateEnds(reg, cfg, env);
      MirrorsSaved(CreateInternal(reg, cfg, env).registry);
    }
  }

  /** A creation leaves the registry as it was, or with the list just saved. */
  lemma CreateEnds(reg: Registry, cfg: Config, env: Env)
    requires env.hasPath && env.saves(cfg.name) && Key(cfg.name) !in reg.queues
    requires cfg.dlq.Some? ==> env.saves(cfg.name + DLQ_SUFFIX)
    ensures var after := CreateInternal(reg, cfg, env).registry;
      after == reg || after.saved == PersistentOnes(after.queues)
  {
    var key := Key(cfg.name);
    var published := WithQueue(reg, key, Entry(cfg, true, false));
    assert published.queues - {key} == reg.queues;
    if cfg.dlq.Some? {
      CreateDlq(published, cfg.dlq.value, cfg.name, env);
      SuffixGrows(key);
      var inner := CreateInternal(published, cfg.dlq.value.ToConfiguration(cfg.name), env);
      assert inner.ok || inner.registry == published;
      if key in inner.registry.queues {
        StartedIsSaved(inner.registry.queues, key, Entry(cfg, true, true));
      }
    } else {
      StartedIsSaved(published.queues, key, Entry(cfg, true, true));
    }
  }

  /** Starting a queue does not change what there is to save. */
  lemma StartedIsSaved(queues: map<string, Entry>, key: string, entry: Entry)
    requires key in queues
    ensures queues[key].cfg == entry.cfg ==> PersistentOnes(queues[key := entry]) == PersistentOnes(queues)
  {
  }

  lemma MirrorsSaved(reg: Registry)
    requires reg.saved == PersistentOnes(reg.queues)
    ensures SavedMirrors(reg)
  {
  }

  // ---------- loading ----------

  function LoadOne(queues: map<string, Entry>, key: string, cfg: Config, env: Env): map<string, Entry> {
    if key in queues then queues
    else
      var added := queues[key := Entry(cfg, Opens(cfg, env), Opens(cfg, env))];
      if cfg.dlq.Some? && cfg.dlq.value.persistence == Ephemeral && Key(cfg.name + DLQ_SUFFIX) !in added
      then added[Key(cfg.name + DLQ_SUFFIX) := Entry(cfg.dlq.value.ToConfiguration(cfg.name), false, false)]
      else added
  }

  /** `order` is the order of the saved list. */
  function LoadAll(queues: map<string, Entry>, order: seq<string>, saved: map<string, Config>, env: Env): map<string, Entry>
    requires forall i :: 0 <= i < |order| ==> order[i] in saved
    decreases |order|
  {
    if order == [] then queues
    else LoadAll(LoadOne(queues, order[0], saved[order[0]], env), order[1..], saved, env)
  }

  // ---------- what creating promises ----------

  /** A queue is filed under its own lower-case name, and what is named like a dead-letter queue has none. */
  predicate FiledAs(key: string, cfg: Config) {
    key == Key(cfg.name) && (IsDlqKey(key) ==> cfg.dlq.None?)
  }

  ghost predicate Filed(queues: map<string, Entry>) {
    forall k :: k in queues ==> FiledAs(k, queues[k].cfg)
  }

  /** A queue that wants a dead-letter queue has one. */
  ghost predicate DlqsPresent(queues: map<string, Entry>) {
    forall k {:trigger queues[k]} :: k in queues && queues[k].cfg.dlq.Some? ==> k + DLQ_SUFFIX in queues
  }

  /** The dead-letter queue that a queue's configuration asks for, setting by setting. */
  predicate IsDlqOf(parent: Config, cfg: Config)
    requires parent.dlq.Some?
  {
    var d := parent.dlq.value;
    && cfg.name == parent.name + ".dlq" && cfg.isDeadLetter && cfg.dlq == None
    && cfg.maxAttempts == d.maxAttempts && cfg.maxAge == d.maxAge && cfg.consumption == d.consumption
    && cfg.delivery == d.delivery && cfg.persistence == d.persistence
    && cfg.asynchronous && cfg.maxOutstanding == 5
  }

  /** Creating a dead-letter queue (which has none of its own) adds it, finds it there, or changes nothing but, at
      most, the saved list. */
  lemma CreateDlq(reg: Registry, d: DeadLetterConfig, parent: string, env: Env)
    ensures var cfg := d.ToConfiguration(parent);
      var made, key := CreateInternal(reg, cfg, env), Key(cfg.name);
      && key == Key(parent) + DLQ_SUFFIX && cfg.dlq.None?
      && (made.ok ==> key in made.registry.queues)
      && (made.ok && key !in reg.queues ==> made.registry.queues == reg.queues[key := Entry(cfg, true, true)])
      && (!made.ok || key in reg.queues ==> made.registry == reg)
      && (key !in reg.queues ==>
            (made.ok <==> (d.persistence == Persistent ==> env.hasPath && env.opens(parent + DLQ_SUFFIX))
                          && (env.hasPath ==> env.saves(parent + DLQ_SUFFIX))))
  {
    var cfg := d.ToConfiguration(parent);
    DlqKey(parent);
    if Key(cfg.name) !in reg.queues {
      assert reg.queues[Key(cfg.name) := Entry(cfg, true, false)] - {Key(cfg.name)} == reg.queues;
    }
  }

  /** A successful creation leaves the queue there, and if it was not there before, as asked for and running, with
      its dead-letter queue; no other queue is touched. */
  lemma CreateSucceeds(reg: Registry, cfg: Config, env: Env)
    requires Create(reg, cfg, env).ok
    ensures var key, queues := Key(cfg.name), Create(reg, cfg, env).registry.queues;
      && key in queues
      && (key in reg.queues ==> Create(reg, cfg, env).registry == reg)
      && (key !in reg.queues ==>
            && queues[key] == Entry(cfg, true, true)
            && (cfg.dlq.Some? ==> key + DLQ_SUFFIX in queues)
            && (cfg.dlq.Some? && key + DLQ_SUFFIX !in reg.queues ==>
                  var dlq := queues[key + DLQ_SUFFIX]; IsDlqOf(cfg, dlq.cfg) && dlq.initialized && dlq.started)
            && (env.hasPath && cfg.persistence == Persistent ==>
                  key in Create(reg, cfg, env).registry.saved && Create(reg, cfg, env).registry.saved[key] == cfg))
      && (forall k :: k in reg.queues ==> k in queues && queues[k] == reg.queues[k])
  {
    var key := Key(cfg.name);
    var published := WithQueue(reg, key, Entry(cfg, true, false));
    if key !in reg.queues && cfg.dlq.Some? {
      CreateDlq(published, cfg.dlq.value, cfg.name, env);
      SuffixGrows(key);
    }
  }

  /** When a creation succeeds: not a dead-letter queue by configuration or name, named, and either there already, or
      the database opens if it has one, the dead-letter queue is there or can be made, opened and saved, and the list
      can be saved. */
  lemma CreateExact(reg: Registry, cfg: Config, env: Env)
    ensures Create(reg, cfg, env).ok <==>
      && !cfg.isDeadLetter && !IsDlqKey(Key(cfg.name)) && cfg.name != ""
      && (Key(cfg.name) !in reg.queues ==>
            && (cfg.persistence == Persistent ==> env.hasPath && env.opens(cfg.name))
            && (cfg.dlq.Some? && Key(cfg.name) + ".dlq" !in reg.queues ==>
                  && (cfg.dlq.value.persistence == Persistent ==> env.hasPath && env.opens(cfg.name + ".dlq"))
                  && (env.hasPath ==> env.saves(cfg.name + ".dlq")))
            && (env.hasPath ==> env.saves(cfg.name)))
  {
    var key := Key(cfg.name);
    if Creatable(cfg) && key !in reg.queues && cfg.dlq.Some? {
      CreateDlq(WithQueue(reg, key, Entry(cfg, true, false)), cfg.dlq.value, cfg.name, env);
      SuffixGrows(key);
    }
  }

  lemma SuffixGrows(key: string)
    ensures key + DLQ_SUFFIX != key
  {
    assert |key + DLQ_SUFFIX| == |key| + 4;
  }

  /** The dead-letter queue can be made by this very creation and saved, and then saving the list for the queue itself
      fails. */
  predicate LeavesOrphan(reg: Registry, cfg: Config, env: Env) {
    && Creatable(cfg) && cfg.name != "" && Key(cfg.name) !in reg.queues && cfg.dlq.Some?
    && (cfg.persistence == Persistent ==> env.hasPath) && Opens(cfg, env)
    && env.hasPath && !env.saves(cfg.name)
    && Key(cfg.name) + DLQ_SUFFIX !in reg.queues
    && (cfg.dlq.value.persistence == Persistent ==> env.opens(cfg.name + DLQ_SUFFIX))
    && env.saves(cfg.name + DLQ_SUFFIX)
  }

  /** The rollback promises that the caller does not end up with a queue that they were told failed. The queue
      itself is indeed never left behind, but the rollback does not take back the dead-letter queue: the dictionary
      is as before unless that was made and saved and only the last saving failed. */
  lemma FailedCreateExact(reg: Registry, cfg: Config, env: Env)
    requires !Create(reg, cfg, env).ok
    ensures Key(cfg.name) !in reg.queues ==> Key(cfg.name) !in Create(reg, cfg, env).registry.queues
    ensures Create(reg, cfg, env).registry.queues == reg.queues <==> !LeavesOrphan(reg, cfg, env)
  {
    var key := Key(cfg.name);
    if Creatable(cfg) && cfg.name != "" && key !in reg.queues {
      var published := WithQueue(reg, key, Entry(cfg, true, false));
      assert published.queues - {key} == reg.queues;
      if cfg.dlq.Some? {
        CreateDlq(published, cfg.dlq.value, cfg.name, env);
        SuffixGrows(key);
        OrphanStays(published.queues, key, Entry(cfg.dlq.value.ToConfiguration(cfg.name), true, true));
      }
    }
  }

  /** Worse, the dead-letter queue's own saving has by then put the queue on the saved list, and the rollback does
      not take it off: a queue reported as failed is brought back by the next start exactly in that case. */
  lemma FailedCreateSaved(reg: Registry, cfg: Config, env: Env)
    requires !Create(reg, cfg, env).ok && Key(cfg.name) !in reg.saved
    ensures Key(cfg.name) in Create(reg, cfg, env).registry.saved <==>
              LeavesOrphan(reg, cfg, env) && cfg.persistence == Persistent
  {
    var key := Key(cfg.name);
    if Creatable(cfg) && cfg.name != "" && key !in reg.queues && cfg.dlq.Some? {
      var published := WithQueue(reg, key, Entry(cfg, true, false));
      CreateDlq(published, cfg.dlq.value, cfg.name, env);
      DlqSaves(published, cfg.dlq.value, cfg.name, env, key);
      SuffixGrows(key);
    }
  }

  lemma DlqSaves(reg: Registry, d: DeadLetterConfig, parent: string, env: Env, key: string)
    requires key in reg.queues && key !in reg.saved && key != Key(parent) + DLQ_SUFFIX
    ensures var cfg := d.ToConfiguration(parent);
      var made := CreateInternal(reg, cfg, env);
      key in made.registry.saved <==>
        made.ok && Key(cfg.name) !in reg.queues && env.hasPath && reg.queues[key].cfg.persistence == Persistent
  {
    CreateDlq(reg, d, parent, env);
  }

  lemma OrphanStays(queues: map<string, Entry>, key: string, dlq: Entry)
    ensures key + DLQ_SUFFIX in queues[key + DLQ_SUFFIX := dlq] - {key}
  {
    SuffixGrows(key);
  }

  // ---------- runs ----------

  datatype Request = CreateQueue(cfg: Config) | DeleteQueue(name: string)

  function Served(reg: Registry, r: Request, env: Env): Registry {
    match r
    case CreateQueue(cfg) => Create(reg, cfg, env).registry
    case DeleteQueue(name) => Deleted(reg, name, env)
  }

  function AllServed(reg: Registry, rs: seq<(Request, Env)>): Registry
    decreases |rs|
  {
    if rs == [] then reg else AllServed(Served(reg, rs[0].0, rs[0].1), rs[1..])
  }

  predicate SparesDlqs(r: Request) {
    r.DeleteQueue? ==> !IsDlqKey(Key(r.name))
  }

  /** The dictionary after a creation: as before, with the queue, with both queues, or with an orphan. */
  ghost predicate Grown(before: map<string, Entry>, key: string, cfg: Config, after: map<string, Entry>) {
    || after == before
    || (cfg.dlq.None? && after == before[key := Entry(cfg, true, true)])
    || (exists dlq: Entry :: GrownWithDlq(before, key, cfg, after, dlq))
    || (cfg.dlq.Some? && key + DLQ_SUFFIX in before && after == before[key := Entry(cfg, true, true)])
  }

  ghost predicate GrownWithDlq(before: map<string, Entry>, key: string, cfg: Config, after: map<string, Entry>, dlq: Entry) {
    && cfg.dlq.Some? && FiledAs(key + DLQ_SUFFIX, dlq.cfg)
    && (|| after == before[key + DLQ_SUFFIX := dlq]
        || after == before[key := Entry(cfg, true, true)][key + DLQ_SUFFIX := dlq])
  }

  lemma CreateGrows(reg: Registry, cfg: Config, env: Env)
    requires Creatable(cfg) && Key(cfg.name) !in reg.queues
    ensures Grown(reg.queues, Key(cfg.name), cfg, Create(reg, cfg, env).registry.queues)
  {
    var key, after := Key(cfg.name), Create(reg, cfg, env).registry.queues;
    var published := WithQueue(reg, key, Entry(cfg, true, false));
    assert published.queues - {key} == reg.queues;
    if cfg.dlq.Some? {
      var dlq := Entry(cfg.dlq.value.ToConfiguration(cfg.name), true, true);
      CreateDlq(published, cfg.dlq.value, cfg.name, env);
      SuffixGrows(key);
      DlqKey(cfg.name);
      assert published.queues[key + DLQ_SUFFIX := dlq] - {key} == reg.queues[key + DLQ_SUFFIX := dlq];
      assert published.queues[key + DLQ_SUFFIX := dlq][key := Entry(cfg, true, true)]
          == reg.queues[key := Entry(cfg, true, true)][key + DLQ_SUFFIX := dlq];
      assert GrownWithDlq(reg.queues, key, cfg, after, dlq) || Grown(reg.queues, key, cfg, after);
    }
  }

  lemma GrownKeepsDlqs(before: map<string, Entry>, key: string, cfg: Config, after: map<string, Entry>)
    requires Filed(before) && DlqsPresent(before) && FiledAs(key, cfg) && Grown(before, key, cfg, after)
    ensures Filed(after) && DlqsPresent(after)
  {
    var entry := Entry(cfg, true, true);
    if dlq :| GrownWithDlq(before, key, cfg, after, dlq) {
      DlqKey(cfg.name);
      SuffixGrows(key);
      AddKeepsDlqs(before, key + DLQ_SUFFIX, dlq);
      if after != before[key + DLQ_SUFFIX := dlq] {
        AddKeepsDlqs(before[key + DLQ_SUFFIX := dlq], key, entry);
        assert after == before[key + DLQ_SUFFIX := dlq][key := entry];
      }
    } else if after != before {
      AddKeepsDlqs(before, key, entry);
    }
  }

  lemma AddKeepsDlqs(before: map<string, Entry>, key: string, entry: Entry)
    requires Filed(before) && DlqsPresent(before) && FiledAs(key, entry.cfg)
    requires entry.cfg.dlq.Some? ==> key + DLQ_SUFFIX in before
    ensures Filed(before[key := entry]) && DlqsPresent(before[key := entry])
  {
  }

  lemma CreateKeepsDlqs(reg: Registry, cfg: Config, env: Env)
    requires Filed(reg.queues) && DlqsPresent(reg.queues)
    ensures var queues := Create(reg, cfg, env).registry.queues; Filed(queues) && DlqsPresent(queues)
  {
    if Creatable(cfg) && Key(cfg.name) !in reg.queues {
      CreateGrows(reg, cfg, env);
      GrownKeepsDlqs(reg.queues, Key(cfg.name), cfg, Create(reg, cfg, env).registry.queues);
    }
  }

  /** A name without the suffix is nobody's dead-letter queue. */
  lemma NoDlqAt(queues: map<string, Entry>, key: string)
    requires !IsDlqKey(key)
    ensures forall k :: k in queues ==> k + DLQ_SUFFIX != key
  {
    forall k | k in queues ensures k + DLQ_SUFFIX != key {
      assert (k + DLQ_SUFFIX)[|k + DLQ_SUFFIX| - |DLQ_SUFFIX|..] == DLQ_SUFFIX;
    }
  }

  /** As long as nobody deletes a dead-letter queue by name, every queue that wants one has one, so a sweep finds
      it; nothing else in the interface can take it away. */
  lemma {:induction false} DlqsStayPresent(reg: Registry, rs: seq<(Request, Env)>)
    requires Filed(reg.queues) && DlqsPresent(reg.queues)
    requires forall i :: 0 <= i < |rs| ==> SparesDlqs(rs[i].0)
    ensures Filed(AllServed(reg, rs).queues) && DlqsPresent(AllServed(reg, rs).queues)
    decreases |rs|
  {
    if rs != [] {
      var r, env := rs[0].0, rs[0].1;
      match r {
        case CreateQueue(cfg) => CreateKeepsDlqs(reg, cfg, env);
        case DeleteQueue(name) => NoDlqAt(reg.queues, Key(name));
      }
      assert forall i :: 0 <= i < |rs[1..]| ==> rs[1..][i] == rs[i + 1];
      DlqsStayPresent(Served(reg, r, env), rs[1..]);
    }
  }

  /** Deleting is the way it goes missing: exactly the deletion of somebody's dead-letter queue breaks the rule. */
  lemma DeletingDlqExact(reg: Registry, name: string, env: Env)
    requires DlqsPresent(reg.queues)
    ensures DlqsPresent(Deleted(reg, name, env).queues) <==>
              forall k :: k in reg.queues && k != Key(name) && reg.queues[k].cfg.dlq.Some? ==> k + DLQ_SUFFIX != Key(name)
  {
    var queues := Deleted(reg, name, env).queues;
    if DlqsPresent(queues) {
      forall k | k in reg.queues && k != Key(name) && reg.queues[k].cfg.dlq.Some? ensures k + DLQ_SUFFIX != Key(name) {
        assert k + DLQ_SUFFIX in reg.queues;
        if Key(name) in reg.queues {
          assert k in queues && queues[k] == reg.queues[k];
        }
      }
    }
  }

  // ---------- what a restart brings back ----------

  ghost predicate SavedWell(saved: map<string, Config>) {
    forall k :: k in saved ==> FiledAs(k, saved[k])
  }

  predicate WantsEphemeralDlq(cfg: Config) {
    cfg.dlq.Some? && cfg.dlq.value.persistence == Ephemeral
  }

  /** Dead-letter queues the load recreates because only persistent queues are saved. */
  ghost predicate Recreated(saved: map<string, Config>, key: string) {
    exists p :: p in saved && WantsEphemeralDlq(saved[p]) && key == p + DLQ_SUFFIX
  }

  /** The entry is that of a saved queue loaded so far, or of a recreated dead-letter queue. */
  ghost predicate LoadedAs(done: set<string>, saved: map<string, Config>, env: Env, key: string, entry: Entry) {
    || (key in done && key in saved && entry == Entry(saved[key], Opens(saved[key], env), Opens(saved[key], env)))
    || (RecreatedAs(saved, key, entry.cfg) && !entry.initialized && !entry.started)
  }

  ghost predicate RecreatedAs(saved: map<string, Config>, key: string, cfg: Config) {
    exists p :: p in saved && WantsEphemeralDlq(saved[p]) && key == p + DLQ_SUFFIX && IsDlqOf(saved[p], cfg)
  }

  ghost predicate PartlyLoaded(queues: map<string, Entry>, done: set<string>, saved: map<string, Config>, env: Env) {
    && (forall k :: k in queues ==> LoadedAs(done, saved, env, k, queues[k]))
    && (forall k :: k in done ==> k in queues && k in saved)
    && (forall k {:trigger WantsEphemeralDlq(saved[k])} ::
          k in done && k in saved && WantsEphemeralDlq(saved[k]) ==> k + DLQ_SUFFIX in queues)
  }

  lemma LoadOneKeeps(queues: map<string, Entry>, done: set<string>, saved: map<string, Config>, env: Env, key: string)
    requires SavedWell(saved) && key in saved && key !in done && PartlyLoaded(queues, done, saved, env)
    ensures PartlyLoaded(LoadOne(queues, key, saved[key], env), done + {key}, saved, env)
  {
    var cfg, queues1 := saved[key], LoadOne(queues, key, saved[key], env);
    DlqKey(cfg.name);
    SuffixGrows(key);
    if key in queues {
      assert LoadedAs(done, saved, env, key, queues[key]);
      var p :| p in saved && WantsEphemeralDlq(saved[p]) && key == p + DLQ_SUFFIX;
      DlqKey(saved[p].name);
    }
    forall k | k in queues1 ensures LoadedAs(done + {key}, saved, env, k, queues1[k]) {
      OneLoadedAs(queues, done, saved, env, key, k);
    }
  }

  /** Each entry after one more queue: an old one, the queue itself, or its recreated dead-letter queue. */
  lemma OneLoadedAs(queues: map<string, Entry>, done: set<string>, saved: map<string, Config>, env: Env, key: string, k: string)
    requires SavedWell(saved) && key in saved && k in LoadOne(queues, key, saved[key], env)
    requires k in queues ==> LoadedAs(done, saved, env, k, queues[k])
    ensures LoadedAs(done + {key}, saved, env, k, LoadOne(queues, key, saved[key], env)[k])
  {
    var cfg := saved[key];
    DlqKey(cfg.name);
    if k !in queues && k != key {
      assert key in saved && WantsEphemeralDlq(saved[key]) && k == key + DLQ_SUFFIX;
    }
  }

  ghost function NamesIn(order: seq<string>): set<string> {
    set k | k in order
  }

  /** `order` lists names not in `done`, each once. */
  ghost predicate Pending(order: seq<string>, done: set<string>, saved: map<string, Config>) {
    && (forall i :: 0 <= i < |order| ==> order[i] in saved && order[i] !in done)
    && (forall i, j :: 0 <= i < j < |order| ==> order[i] != order[j])
  }

  lemma PendingRest(order: seq<string>, done: set<string>, saved: map<string, Config>)
    requires Pending(order, done, saved) && order != []
    ensures Pending(order[1..], done + {order[0]}, saved)
    ensures done + {order[0]} + NamesIn(order[1..]) == done + NamesIn(order)
  {
    assert order == [order[0]] + order[1..];
  }

  lemma {:induction false} LoadAllKeeps(
    queues: map<string, Entry>, done: set<string>, order: seq<string>, saved: map<string, Config>, env: Env)
    requires SavedWell(saved) && PartlyLoaded(queues, done, saved, env) && Pending(order, done, saved)
    ensures PartlyLoaded(LoadAll(queues, order, saved, env), done + NamesIn(order), saved, env)
    decreases |order|
  {
    if order == [] {
      assert done + NamesIn(order) == done;
    } else {
      LoadOneKeeps(queues, done, saved, env, order[0]);
      PendingRest(order, done, saved);
      LoadAllKeeps(LoadOne(queues, order[0], saved[order[0]], env), done + {order[0]}, order[1..], saved, env);
    }
  }

  /** What a restart brings back, whatever the order of the saved list: the saved queues and the dead-letter queues
      recreated for them. A saved queue runs if its database opens; a recreated dead-letter queue is never
      initialized, so it is never started. */
  lemma RestartBringsBack(order: seq<string>, saved: map<string, Config>, env: Env)
    requires SavedWell(saved) && (forall k :: k in order <==> k in saved)
    requires forall i, j :: 0 <= i < j < |order| ==> order[i] != order[j]
    ensures forall i :: 0 <= i < |order| ==> order[i] in saved
    ensures var queues := LoadAll(map[], order, saved, env);
      && (forall k :: k in queues <==> k in saved || Recreated(saved, k))
      && (forall k :: k in saved && !Recreated(saved, k) ==>
            queues[k] == Entry(saved[k], Opens(saved[k], env), Opens(saved[k], env)))
      && (forall k :: Recreated(saved, k) && k !in saved ==> !queues[k].initialized && !queues[k].started)
      && (forall p :: p in saved && WantsEphemeralDlq(saved[p]) && p + DLQ_SUFFIX !in saved ==>
            p + DLQ_SUFFIX in queues && IsDlqOf(saved[p], queues[p + DLQ_SUFFIX].cfg))
  {
    assert forall i :: 0 <= i < |order| ==> order[i] in order;
    LoadAllKeeps(map[], {}, order, saved, env);
    assert {} + NamesIn(order) == saved.Keys;
    var queues := LoadAll(map[], order, saved, env);
    forall p | p in saved && WantsEphemeralDlq(saved[p]) && p + DLQ_SUFFIX !in saved
      ensures p + DLQ_SUFFIX in queues && IsDlqOf(saved[p], queues[p + DLQ_SUFFIX].cfg)
    {
      assert LoadedAs(saved.Keys, saved, env, p + DLQ_SUFFIX, queues[p + DLQ_SUFFIX]);
      var x :| x in saved && WantsEphemeralDlq(saved[x]) && p + DLQ_SUFFIX == x + DLQ_SUFFIX
               && IsDlqOf(saved[x], queues[p + DLQ_SUFFIX].cfg);
      DlqKeyInjective(p, x);
    }
  }

  /** After a restart a saved queue that wants a dead-letter queue finds one exactly if that one was saved or is
      configured to be ephemeral: an ephemeral one left over from an earlier queue of the same name is gone. */
  lemma DlqAfterRestartExact(order: seq<string>, saved: map<string, Config>, env: Env, p: string)
    requires SavedWell(saved) && (forall k :: k in order <==> k in saved)
    requires forall i, j :: 0 <= i < j < |order| ==> order[i] != order[j]
    requires p in saved && saved[p].dlq.Some?
    ensures forall i :: 0 <= i < |order| ==> order[i] in saved
    ensures p + DLQ_SUFFIX in LoadAll(map[], order, saved, env) <==>
              p + DLQ_SUFFIX in saved || saved[p].dlq.value.persistence == Ephemeral
  {
    RestartBringsBack(order, saved, env);
    if Recreated(saved, p + DLQ_SUFFIX) {
      var x :| x in saved && WantsEphemeralDlq(saved[x]) && p + DLQ_SUFFIX == x + DLQ_SUFFIX;
      DlqKeyInjective(p, x);
    }
  }

  /** What is saved during a run is well filed. */
  lemma {:induction false} SavedStaysWell(reg: Registry, rs: seq<(Request, Env)>)
    requires Filed(reg.queues) && SavedWell(reg.saved)
    ensures Filed(AllServed(reg, rs).queues) && SavedWell(AllServed(reg, rs).saved)
    decreases |rs|
  {
    if rs != [] {
      var r, env := rs[0].0, rs[0].1;
      if r.CreateQueue? {
        CreateFiles(reg, r.cfg, env);
      }
      SavedStaysWell(Served(reg, r, env), rs[1..]);
    }
  }

  lemma CreateFiles(reg: Registry, cfg: Config, env: Env)
    requires Filed(reg.queues) && SavedWell(reg.saved)
    ensures var after := Create(reg, cfg, env).registry; Filed(after.queues) && SavedWell(after.saved)
  {
    if Creatable(cfg) {
      InternalFiles(reg, cfg, env);
    }
  }

  lemma {:induction false} InternalFiles(reg: Registry, cfg: Config, env: Env)
    requires Filed(reg.queues) && SavedWell(reg.saved) && FiledAs(Key(cfg.name), cfg)
    ensures var after := CreateInternal(reg, cfg, env).registry; Filed(after.queues) && SavedWell(after.saved)
    decreases cfg.dlq.Some?
  {
    if cfg.dlq.Some? {
      DlqKey(cfg.name);
      InternalFiles(WithQueue(reg, Key(cfg.name), Entry(cfg, true, false)), cfg.dlq.value.ToConfiguration(cfg.name), env);
    }
  }

  /** The rounds of a loop that looks the queue up in this dictionary. */
  function Looking(rounds: seq<Round>, present: bool): (seen: seq<Round>)
    ensures |seen| == |rounds| && forall i :: 0 <= i < |rounds| ==> seen[i] == rounds[i].(found := present)
  {
    seq(|rounds|, i requires 0 <= i < |rounds| => rounds[i].(found := present))
  }

  // ---------- the server object ----------

  class Broker {
    var queues: map<string, Entry>
    var saved: map<string, Config>

    function Snapshot(): Registry
      reads this
    {
      Registry(queues, saved)
    }

    constructor (saved: map<string, Config>)
      ensures Snapshot() == Registry(map[], saved)
    {
      queues, this.saved := map[], saved;
    }

    /** Saves the persistent queues; `name` is the queue on whose account. */
    method CheckpointPersistentMessageQueues(name: string, env: Env) returns (ok: bool)
      modifies this`saved
      ensures ok == (env.hasPath ==> env.saves(name))
      ensures Snapshot() == if ok then Checkpointed(old(Snapshot()), env) else old(Snapshot())
    {
      if env.hasPath {
        if !env.saves(name) {
          return false;
        }
        saved := PersistentOnes(queues);
      }
      return true;
    }

    /** Throws for what cannot be created by the caller; otherwise creates the queue unless it exists. */
    method CreateQueue(cfg: Config, env: Env) returns (ok: bool)
      modifies this
      ensures Created(Snapshot(), ok) == Create(old(Snapshot()), cfg, env)
    {
      if cfg.isDeadLetter || IsDlqKey(Key(cfg.name)) {
        return false;
      }
      ok := CreateQueueInternal(cfg, env);
    }

    method CreateQueueInternal(cfg: Config, env: Env) returns (ok: bool)
      modifies this
      ensures Created(Snapshot(), ok) == CreateInternal(old(Snapshot()), cfg, env)
      decreases cfg.dlq.Some?
    {
      var key := Key(cfg.name);
      if cfg.name == "" {
        return false;
      }
      if key in queues {
        return true;
      }
      if cfg.persistence == Persistent && (!env.hasPath || !env.opens(cfg.name)) {
        return false;
      }
      queues := queues[key := Entry(cfg, true, false)];
      ok := true;
      if cfg.dlq.Some? {
        ok := CreateQueueInternal(cfg.dlq.value.ToConfiguration(cfg.name), env);
      }
      if ok {
        ok := CheckpointPersistentMessageQueues(cfg.name, env);
      }
      if ok {
        queues := queues[key := Entry(cfg, true, true)];
      } else {
        queues := queues - {key};
      }
    }

    /** A queue that is not there, or a stopped server, is no error; running out of time is, and so is a list that
        cannot be saved, but then the queue is gone all the same. Whether a round finds the queue is up to the
        dictionary. */
    method DeleteQueue(name: string, env: Env, rounds: seq<Round>) returns (threw: bool)
      modifies this
      ensures match Decide(Looking(rounds, Key(name) in old(queues)))
        case Entered => Snapshot() == Deleted(old(Snapshot()), name, env) && threw == (env.hasPath && !env.saves(name))
        case TooLate => Snapshot() == old(Snapshot()) && threw
        case _ => Snapshot() == old(Snapshot()) && !threw
    {
      ghost var seen := Looking(rounds, Key(name) in queues);
      var i := 0;
      while i < |rounds| && rounds[i].running
        invariant 0 <= i <= |rounds| && Snapshot() == old(Snapshot())
        invariant Decide(seen[i..]) == Decide(seen)
      {
        if rounds[i].late {
          return true;
        }
        if Key(name) !in queues {
          return false;
        }
        if rounds[i].locked {
          queues := queues - {Key(name)};
          var ok := CheckpointPersistentMessageQueues(name, env);
          return !ok;
        }
        assert seen[i..][1..] == seen[i + 1..];
        i := i + 1;
      }
      return false;
    }

    /** Loads the saved queues into an empty dictionary, in the order in which they were saved. */
    method Start(order: seq<string>, env: Env)
      requires queues == map[] && forall i :: 0 <= i < |order| ==> order[i] in saved
      modifies this`queues
      ensures queues == LoadAll(map[], order, saved, env)
    {
      var i := 0;
      while i < |order|
        invariant 0 <= i <= |order|
        invariant LoadAll(queues, order[i..], saved, env) == LoadAll(map[], order, saved, env)
      {
        assert order[i..][1..] == order[i + 1..];
        var key, cfg := order[i], saved[order[i]];
        if key !in queues {
          var initialized := cfg.persistence == Ephemeral || env.opens(cfg.name);
          queues := queues[key := Entry(cfg, initialized, initialized)];
          if cfg.dlq.Some? && cfg.dlq.value.persistence == Ephemeral {
            var dlqKey := Key(cfg.name + DLQ_SUFFIX);
            if dlqKey !in queues {
              queues := queues[dlqKey := Entry(cfg.dlq.value.ToConfiguration(cfg.name), false, false)];
            }
          }
        }
        i := i + 1;
      }
    }
  }
}
