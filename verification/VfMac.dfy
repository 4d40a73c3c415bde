/** Persistent MAC addresses of virtual functions (VFs). A run reads the saved mapping, gives every
    VF it finds its saved address or a new random one, and saves the mapping again. */
module VfMac {
  import opened Common

  /** Per physical function (ECPF), the address of each of its VFs. */
  type Mapping = map<string, map<string, string>>

  /** The config file: missing, unparsable, or a saved mapping. */
  datatype File = Absent | Garbled | Saved(mapping: Mapping)

  datatype Stat = Present | NotThere | StatError

  /** What the system answers while one VF is processed. `writable` covers the checks before the
      address is written and the write itself; `random` is the address the device picks. */
  datatype VfAnswers = VfAnswers(stat: Stat, writable: bool, random: string, readable: bool)

  /** What the system answers during a run; ECPFs and VFs go by position. */
  datatype Answers = Answers(readable: bool, firstSave: bool, count: nat -> Option<nat>, vf: (nat, nat) -> VfAnswers,
                             lastSave: bool)

  function Digits(n: nat): string {
    if n < 10 then ["0123456789"[n]] else Digits(n / 10) + ["0123456789"[n % 10]]
  }

  function VfName(i: nat): string {
    "vf" + Digits(i)
  }

  /** The addresses that the VFs have. */
  type Hardware = map<(string, string), string>

  function Address(hw: Hardware, e: string, v: string): Option<string> {
    if (e, v) in hw then Some(hw[(e, v)]) else None
  }

  predicate Has(mapping: Mapping, e: string, v: string) {
    e in mapping && v in mapping[e]
  }

  predicate Counted(answers: Answers, k: nat, i: nat) {
    answers.count(k).Some? && i < answers.count(k).value
  }

  /** Position `k` of the ECPFs and position `i` of its VFs is a VF that the run finds. */
  predicate Finds(ecpfs: seq<string>, answers: Answers, k: nat, i: nat) {
    k < |ecpfs| && Counted(answers, k, i) && answers.vf(k, i).stat.Present?
  }

  /** The run finds this VF. */
  ghost predicate Found(ecpfs: seq<string>, answers: Answers, e: string, v: string) {
    exists k: nat, i: nat :: Finds(ecpfs, answers, k, i) && ecpfs[k] == e && VfName(i) == v
  }

  /** Some VF found earlier than position `k`, `i` is this VF. */
  ghost predicate FoundBefore(ecpfs: seq<string>, answers: Answers, k: nat, i: nat, e: string, v: string) {
    exists x: nat, y: nat :: Finds(ecpfs, answers, x, y) && (x < k || (x == k && y < i))
      && ecpfs[x] == e && VfName(y) == v
  }

  function Loaded(file: File): Mapping {
    if file.Saved? then file.mapping else map[]
  }

  // ---------------------------------------------------------------- what a run promises

  /** What is recorded stays recorded, with the same address, and only found VFs come in. */
  ghost predicate Extends(ecpfs: seq<string>, answers: Answers, k: nat, i: nat, before: Mapping, after: Mapping) {
    && (forall e, v :: Has(before, e, v) && e in after ==> Has(after, e, v) && after[e][v] == before[e][v])
    && (forall e, v :: Has(after, e, v) ==> Has(before, e, v) || FoundBefore(ecpfs, answers, k, i, e, v))
  }

  /** Only found VFs get a new address, and those with a recorded one get exactly that. */
  ghost predicate Assigns(ecpfs: seq<string>, answers: Answers, loaded: Mapping, before: Hardware, after: Hardware) {
    && (forall e, v :: Address(after, e, v) != Address(before, e, v) ==> Found(ecpfs, answers, e, v))
    && (forall e, v :: Has(loaded, e, v) ==>
          Address(after, e, v) == Address(before, e, v) || Address(after, e, v) == Some(loaded[e][v]))
  }

  ghost predicate InForce(valid: string -> bool, mapping: Mapping, hw: Hardware, e: string, v: string) {
    Has(mapping, e, v) && valid(mapping[e][v]) && Address(hw, e, v) == Some(mapping[e][v])
  }

  /** The VFs found among the first `k` ECPFs, and the first `i` VFs of the next one, have the valid
      address that is recorded for them. */
  ghost predicate Done(valid: string -> bool, ecpfs: seq<string>, answers: Answers, k: nat, i: nat, mapping: Mapping,
                       hw: Hardware)
  {
    forall x: nat, y: nat :: Finds(ecpfs, answers, x, y) && (x < k || (x == k && y < i)) ==>
      InForce(valid, mapping, hw, ecpfs[x], VfName(y))
  }

  /** What a run does to the file and the hardware. */
  ghost predicate RunEffect(valid: string -> bool, ecpfs: seq<string>, answers: Answers, file: File, hw: Hardware,
                            ok: bool, file': File, hw': Hardware)
  {
    && Assigns(ecpfs, answers, Loaded(file), hw, hw')
    && if ok
       then
         && file'.Saved? && file'.mapping.Keys == (set e | e in ecpfs)
         && Extends(ecpfs, answers, |ecpfs|, 0, Loaded(file), file'.mapping)
         && Done(valid, ecpfs, answers, |ecpfs|, 0, file'.mapping, hw')
       else file' == file || (file.Absent? && file' == Saved(map[]))
  }

  // ---------------------------------------------------------------- when a run gets through

  ghost predicate Usable(valid: string -> bool, mapping: Mapping) {
    forall e, v :: Has(mapping, e, v) ==> mapping[e][v] == "" || valid(mapping[e][v])
  }

  ghost predicate Loadable(valid: string -> bool, file: File, answers: Answers) {
    match file
    case Absent => answers.firstSave
    case Garbled => false
    case Saved(m) => answers.readable && Usable(valid, m)
  }

  /** The VF at this position can be processed: its address, recorded before the run, earlier in the
      run or picked by the device now, is valid and can be written. */
  ghost predicate Passes(valid: string -> bool, ecpfs: seq<string>, answers: Answers, loaded: Mapping, k: nat, i: nat)
    requires k < |ecpfs|
  {
    var a := answers.vf(k, i);
    var e, v := ecpfs[k], VfName(i);
    && !a.stat.StatError?
    && (a.stat.Present? ==>
          && a.writable
          && (if Has(loaded, e, v) then valid(loaded[e][v])
              else FoundBefore(ecpfs, answers, k, i, e, v) || (a.readable && a.random != "" && valid(a.random))))
  }

  ghost predicate AllPass(valid: string -> bool, ecpfs: seq<string>, answers: Answers, loaded: Mapping, k: nat, i: nat)
  {
    forall x: nat, y: nat :: x < |ecpfs| && Counted(answers, x, y) && (x < k || (x == k && y < i)) ==>
      Passes(valid, ecpfs, answers, loaded, x, y)
  }

  ghost predicate Unobstructed(valid: string -> bool, ecpfs: seq<string>, answers: Answers, file: File) {
    && Loadable(valid, file, answers) && answers.lastSave
    && (forall k: nat :: k < |ecpfs| ==> answers.count(k).Some?)
    && AllPass(valid, ecpfs, answers, Loaded(file), |ecpfs|, 0)
  }

  // ---------------------------------------------------------------- one VF

  ghost predicate Progress(valid: string -> bool, ecpfs: seq<string>, answers: Answers, k: nat, i: nat, loaded: Mapping,
                           before: Hardware, mapping: Mapping, hw: Hardware)
  {
    && loaded.Keys <= mapping.Keys
    && Extends(ecpfs, answers, k, i, loaded, mapping) && Assigns(ecpfs, answers, loaded, before, hw)
    && Done(valid, ecpfs, answers, k, i, mapping, hw)
  }

  /** Writing the recorded address, or any address to a VF that has none recorded. */
  lemma WriteAssigns(ecpfs: seq<string>, answers: Answers, loaded: Mapping, before: Hardware, hw: Hardware, e: string,
                     v: string, mac: string)
    requires Assigns(ecpfs, answers, loaded, before, hw) && Found(ecpfs, answers, e, v)
    requires Has(loaded, e, v) ==> loaded[e][v] == mac
    ensures Assigns(ecpfs, answers, loaded, before, hw[(e, v) := mac])
  {
    hide Found;
    var hw' := hw[(e, v) := mac];
    assert forall f, w :: (f, w) != (e, v) ==> Address(hw', f, w) == Address(hw, f, w);
  }

  lemma RecordExtends(ecpfs: seq<string>, answers: Answers, k: nat, i: nat, loaded: Mapping, mapping: Mapping,
                      mac: string)
    requires Extends(ecpfs, answers, k, i, loaded, mapping) && Finds(ecpfs, answers, k, i) && ecpfs[k] in mapping
    requires Has(mapping, ecpfs[k], VfName(i)) || Has(loaded, ecpfs[k], VfName(i)) ==>
               Has(mapping, ecpfs[k], VfName(i)) && mapping[ecpfs[k]][VfName(i)] == mac
    ensures var e, v := ecpfs[k], VfName(i);
            Extends(ecpfs, answers, k, i + 1, loaded, mapping[e := mapping[e][v := mac]])
  {
    FoundLater(ecpfs, answers, k, i);
    hide FoundBefore;
    var e, v := ecpfs[k], VfName(i);
    var after := mapping[e := mapping[e][v := mac]];
    assert forall f, w :: Has(after, f, w) <==> Has(mapping, f, w) || (f, w) == (e, v);
    assert forall f, w :: Has(mapping, f, w) ==> after[f][w] == mapping[f][w];
  }

  lemma FoundLater(ecpfs: seq<string>, answers: Answers, k: nat, i: nat)
    ensures forall e, v :: FoundBefore(ecpfs, answers, k, i, e, v) ==> FoundBefore(ecpfs, answers, k, i + 1, e, v)
    ensures Finds(ecpfs, answers, k, i) ==> FoundBefore(ecpfs, answers, k, i + 1, ecpfs[k], VfName(i))
    ensures forall e, v :: FoundBefore(ecpfs, answers, k, i, e, v) ==> FoundBefore(ecpfs, answers, k + 1, 0, e, v)
  {
  }

  lemma RecordDone(valid: string -> bool, ecpfs: seq<string>, answers: Answers, k: nat, i: nat, mapping: Mapping,
                   hw: Hardware, mac: string)
    requires k < |ecpfs| && ecpfs[k] in mapping && Done(valid, ecpfs, answers, k, i, mapping, hw) && valid(mac)
    requires Has(mapping, ecpfs[k], VfName(i)) ==> mapping[ecpfs[k]][VfName(i)] == mac
    ensures var e, v := ecpfs[k], VfName(i);
            Done(valid, ecpfs, answers, k, i + 1, mapping[e := mapping[e][v := mac]], hw[(e, v) := mac])
  {
    var e, v := ecpfs[k], VfName(i);
    var after, hw' := mapping[e := mapping[e][v := mac]], hw[(e, v) := mac];
    forall x: nat, y: nat | Finds(ecpfs, answers, x, y) && (x < k || (x == k && y < i + 1))
      ensures InForce(valid, after, hw', ecpfs[x], VfName(y))
    {
      if (ecpfs[x], VfName(y)) != (e, v) {
        assert InForce(valid, mapping, hw, ecpfs[x], VfName(y));
      }
    }
  }

  /** A found VF gets its recorded address, or a new address is written and recorded. */
  lemma VfKeepsProgress(valid: string -> bool, ecpfs: seq<string>, answers: Answers, k: nat, i: nat, loaded: Mapping,
                        before: Hardware, mapping: Mapping, hw: Hardware, mac: string)
    requires Finds(ecpfs, answers, k, i) && ecpfs[k] in mapping
    requires Progress(valid, ecpfs, answers, k, i, loaded, before, mapping, hw)
    requires Has(mapping, ecpfs[k], VfName(i)) ==> mapping[ecpfs[k]][VfName(i)] == mac
    ensures var e, v := ecpfs[k], VfName(i);
            && Assigns(ecpfs, answers, loaded, before, hw[(e, v) := mac])
            && (valid(mac) ==> Progress(valid, ecpfs, answers, k, i + 1, loaded, before,
                                        mapping[e := mapping[e][v := mac]], hw[(e, v) := mac]))
  {
    hide Assigns, Done;
    var e, v := ecpfs[k], VfName(i);
    assert Found(ecpfs, answers, e, v);
    WriteAssigns(ecpfs, answers, loaded, before, hw, e, v, mac);
    RecordExtends(ecpfs, answers, k, i, loaded, mapping, mac);
    if valid(mac) {
      RecordDone(valid, ecpfs, answers, k, i, mapping, hw, mac);
    }
  }

  lemma SkipKeepsProgress(valid: string -> bool, ecpfs: seq<string>, answers: Answers, k: nat, i: nat, loaded: Mapping,
                          before: Hardware, mapping: Mapping, hw: Hardware)
    requires Progress(valid, ecpfs, answers, k, i, loaded, before, mapping, hw) && !Finds(ecpfs, answers, k, i)
    ensures Progress(valid, ecpfs, answers, k, i + 1, loaded, before, mapping, hw)
  {
    FoundLater(ecpfs, answers, k, i);
    hide FoundBefore;
  }

  lemma NextEcpfKeepsProgress(valid: string -> bool, ecpfs: seq<string>, answers: Answers, k: nat, loaded: Mapping,
                              before: Hardware, mapping: Mapping, hw: Hardware)
    requires answers.count(k).Some?
    requires Progress(valid, ecpfs, answers, k, answers.count(k).value, loaded, before, mapping, hw)
    ensures Progress(valid, ecpfs, answers, k + 1, 0, loaded, before, mapping, hw)
  {
    FoundLater(ecpfs, answers, k, answers.count(k).value);
    hide FoundBefore;
  }

  lemma NewEcpfKeepsProgress(valid: string -> bool, ecpfs: seq<string>, answers: Answers, k: nat, loaded: Mapping,
                             before: Hardware, mapping: Mapping, hw: Hardware, e: string)
    requires Progress(valid, ecpfs, answers, k, 0, loaded, before, mapping, hw) && e !in mapping
    ensures Progress(valid, ecpfs, answers, k, 0, loaded, before, mapping[e := map[]], hw)
  {
    var after := mapping[e := map[]];
    assert forall f, w :: Has(after, f, w) <==> Has(mapping, f, w);
    forall x: nat, y: nat | Finds(ecpfs, answers, x, y) && x < k
      ensures InForce(valid, after, hw, ecpfs[x], VfName(y)) {
      assert InForce(valid, mapping, hw, ecpfs[x], VfName(y));
    }
  }

  lemma PruneKeepsProgress(valid: string -> bool, ecpfs: seq<string>, answers: Answers, loaded: Mapping,
                           mapping: Mapping, hw: Hardware, e: string)
    requires Extends(ecpfs, answers, |ecpfs|, 0, loaded, mapping) && e !in ecpfs
    requires Done(valid, ecpfs, answers, |ecpfs|, 0, mapping, hw)
    ensures Extends(ecpfs, answers, |ecpfs|, 0, loaded, mapping - {e})
    ensures Done(valid, ecpfs, answers, |ecpfs|, 0, mapping - {e}, hw)
  {
    var after := mapping - {e};
    assert forall f, w :: Has(after, f, w) <==> Has(mapping, f, w) && f != e;
    forall x: nat, y: nat | Finds(ecpfs, answers, x, y) ensures InForce(valid, after, hw, ecpfs[x], VfName(y)) {
      assert InForce(valid, mapping, hw, ecpfs[x], VfName(y));
    }
  }

  // ---------------------------------------------------------------- the runs

  class VfMacs {
    const valid: string -> bool
    var file: File
    var hw: Hardware

    constructor (valid: string -> bool, file: File, hw: Hardware)
      ensures this.valid == valid && this.file == file && this.hw == hw
    {
      this.valid, this.file, this.hw := valid, file, hw;
    }

    /** Reads the mapping, creating an empty file if there is none. */
    method LoadConfig(answers: Answers) returns (r: Result<Mapping>)
      modifies this`file
      ensures r.Ok? <==> Loadable(valid, old(file), answers)
      ensures r.Ok? ==> r.value == Loaded(old(file)) && Usable(valid, r.value)
      ensures file == old(file) || (old(file).Absent? && file == Saved(map[]))
    {
      if file.Absent? {
        if !answers.firstSave {
          return Err("failed to create initial config file");
        }
        file := Saved(map[]);
        return Ok(map[]);
      }
      if !answers.readable {
        return Err("failed to read config file");
      }
      if file.Garbled? {
        return Err("failed to parse config file");
      }
      var mapping := file.mapping;
      if exists e | e in mapping :: exists v | v in mapping[e] :: mapping[e][v] != "" && !valid(mapping[e][v]) {
        return Err("invalid MAC address in config");
      }
      return Ok(mapping);
    }

    /** Writes an address; the device picks one if asked for a random one. */
    method SetVfMac(e: string, v: string, mac: string, answers: VfAnswers) returns (ok: bool)
      modifies this`hw
      ensures ok == (answers.writable && (mac == "Random" || valid(mac)))
      ensures hw == if ok then old(hw)[(e, v) := if mac == "Random" then answers.random else mac] else old(hw)
    {
      if mac != "Random" && !valid(mac) {
        return false;
      }
      if !answers.writable {
        return false;
      }
      hw := hw[(e, v) := if mac == "Random" then answers.random else mac];
      return true;
    }

    method GetVfConfig(e: string, v: string, answers: VfAnswers) returns (r: Result<string>)
      ensures r.Ok? <==> answers.readable && Address(hw, e, v).Some? && Address(hw, e, v).value != ""
                         && valid(Address(hw, e, v).value)
      ensures r.Ok? ==> Address(hw, e, v) == Some(r.value)
    {
      if !answers.readable || (e, v) !in hw || hw[(e, v)] == "" || !valid(hw[(e, v)]) {
        return Err("failed to get MAC address");
      }
      return Ok(hw[(e, v)]);
    }

    method ProcessVf(ghost ecpfs: seq<string>, ghost all: Answers, ghost k: nat, ghost i: nat, ghost loaded: Mapping,
                     ghost before: Hardware, e: string, v: string, answers: VfAnswers, mapping: Mapping)
      returns (ok: bool, after: Mapping)
      requires Progress(valid, ecpfs, all, k, i, loaded, before, mapping, hw)
      requires k < |ecpfs| && all.count(k).Some? && i < all.count(k).value
      requires e == ecpfs[k] && v == VfName(i) && answers == all.vf(k, i) && e in mapping
      requires !valid("Random") && Usable(valid, mapping)
      modifies this`hw
      ensures ok ==> Progress(valid, ecpfs, all, k, i + 1, loaded, before, after, hw)
      ensures ok ==> Usable(valid, after) && after.Keys == mapping.Keys
      ensures ok <==> Passes(valid, ecpfs, all, loaded, k, i)
      ensures !ok ==> Assigns(ecpfs, all, loaded, before, hw)
    {
      KnownIff(valid, ecpfs, all, k, i, loaded, before, mapping, hw);
      hide Assigns, Done, Extends;
      after := mapping;
      if answers.stat.NotThere? {
        SkipKeepsProgress(valid, ecpfs, all, k, i, loaded, before, mapping, hw);
        return true, after;
      }
      if answers.stat.StatError? {
        return false, after;
      }
      if v !in mapping[e] {
        VfKeepsProgress(valid, ecpfs, all, k, i, loaded, before, mapping, hw, answers.random);
        ok := SetVfMac(e, v, "Random", answers);
        if !ok {
          return false, after;
        }
        var config := GetVfConfig(e, v, answers);
        if config.Err? {
          return false, after;
        }
        after := mapping[e := mapping[e][v := config.value]];
        assert forall f, w :: Has(after, f, w) ==>
          (f, w) == (e, v) || (Has(mapping, f, w) && after[f][w] == mapping[f][w]);
        return true, after;
      }
      var mac := mapping[e][v];
      VfKeepsProgress(valid, ecpfs, all, k, i, loaded, before, mapping, hw, mac);
      ok := SetVfMac(e, v, mac, answers);
      assert Has(mapping, e, v) && mapping[e][v := mac] == mapping[e] && mapping[e := mapping[e]] == mapping;
    }
  
    /** One run over the discovered ECPFs. A word like "Random" is not a MAC address. */
    method ProcessVfs(ecpfs: seq<string>, answers: Answers) returns (ok: bool)
      requires !valid("Random")
      modifies this
      ensures RunEffect(valid, ecpfs, answers, old(file), old(hw), ok, file, hw)
      ensures ok <==> Unobstructed(valid, ecpfs, answers, old(file))
    {
      hide Assigns, Done, Extends, Loadable, Passes;
      var load := LoadConfig(answers);
      ghost var loaded, before := Loaded(old(file)), hw;
      Unchanged(valid, ecpfs, answers, loaded, hw);
      if load.Err? {
        return false;
      }
      var mapping := load.value;
      ghost var initial := file;
      for k := 0 to |ecpfs|
        modifies this`hw
        invariant file == initial && Usable(valid, mapping)
        invariant Progress(valid, ecpfs, answers, k, 0, loaded, before, mapping, hw)
        invariant forall x :: 0 <= x < k ==> ecpfs[x] in mapping && answers.count(x).Some?
        invariant AllPass(valid, ecpfs, answers, loaded, k, 0)
      {
        var e := ecpfs[k];
        if e !in mapping {
          NewEcpfKeepsProgress(valid, ecpfs, answers, k, loaded, before, mapping, hw, e);
          mapping := mapping[e := map[]];
        }
        if answers.count(k).None? {
          return false;
        }
        for i := 0 to answers.count(k).value
          modifies this`hw
          invariant file == initial && Usable(valid, mapping)
          invariant Progress(valid, ecpfs, answers, k, i, loaded, before, mapping, hw)
          invariant forall x :: 0 <= x <= k ==> ecpfs[x] in mapping && answers.count(x).Some?
          invariant AllPass(valid, ecpfs, answers, loaded, k, i)
        {
          ok, mapping := ProcessVf(ecpfs, answers, k, i, loaded, before, e, VfName(i), answers.vf(k, i), mapping);
          if !ok {
            return false;
          }
        }
        NextEcpfKeepsProgress(valid, ecpfs, answers, k, loaded, before, mapping, hw);
      }
      mapping := RemoveStale(ecpfs, answers, loaded, mapping);
      if !answers.lastSave {
        return false;
      }
      file := Saved(mapping);
      return true;
    }

    /** Drops the ECPFs that are no longer discovered. */
    method RemoveStale(ecpfs: seq<string>, ghost answers: Answers, ghost loaded: Mapping, mapping: Mapping)
      returns (after: Mapping)
      requires Extends(ecpfs, answers, |ecpfs|, 0, loaded, mapping)
      requires Done(valid, ecpfs, answers, |ecpfs|, 0, mapping, hw)
      requires forall x :: 0 <= x < |ecpfs| ==> ecpfs[x] in mapping
      ensures Extends(ecpfs, answers, |ecpfs|, 0, loaded, after) && Done(valid, ecpfs, answers, |ecpfs|, 0, after, hw)
      ensures after.Keys == set e | e in ecpfs
    {
      hide Done, Extends;
      after := mapping;
      var todo := mapping.Keys;
      while todo != {}
        invariant todo <= after.Keys <= mapping.Keys
        invariant forall e :: e in mapping && (e in todo || e in ecpfs) ==> e in after
        invariant forall e :: e in after && e !in todo ==> e in ecpfs
        invariant Extends(ecpfs, answers, |ecpfs|, 0, loaded, after)
        invariant Done(valid, ecpfs, answers, |ecpfs|, 0, after, hw)
        decreases todo
      {
        var e :| e in todo;
        todo := todo - {e};
        if e !in ecpfs {
          PruneKeepsProgress(valid, ecpfs, answers, loaded, after, hw, e);
          after := after - {e};
        }
      }
    }
  }

  /** Where the run is, a VF has an address recorded exactly if it had one or was found before. */
  lemma KnownIff(valid: string -> bool, ecpfs: seq<string>, answers: Answers, k: nat, i: nat, loaded: Mapping,
                 before: Hardware, mapping: Mapping, hw: Hardware)
    requires Progress(valid, ecpfs, answers, k, i, loaded, before, mapping, hw) && k < |ecpfs| && ecpfs[k] in mapping
    ensures var e, v := ecpfs[k], VfName(i);
            && (v in mapping[e] <==> Has(loaded, e, v) || FoundBefore(ecpfs, answers, k, i, e, v))
            && (Has(loaded, e, v) ==> mapping[e][v] == loaded[e][v])
            && (v in mapping[e] && !Has(loaded, e, v) ==> valid(mapping[e][v]))
  {
    var e, v := ecpfs[k], VfName(i);
    if FoundBefore(ecpfs, answers, k, i, e, v) {
      var x: nat, y: nat :| Finds(ecpfs, answers, x, y) && (x < k || (x == k && y < i))
                            && ecpfs[x] == e && VfName(y) == v;
      assert InForce(valid, mapping, hw, ecpfs[x], VfName(y));
    }
  }

  lemma Unchanged(valid: string -> bool, ecpfs: seq<string>, answers: Answers, loaded: Mapping, hw: Hardware)
    ensures Progress(valid, ecpfs, answers, 0, 0, loaded, hw, loaded, hw)
  {
  }

  // ---------------------------------------------------------------- sequences of runs

  datatype Run = Run(ecpfs: seq<string>, answers: Answers, file: File, hw: Hardware,
                     ok: bool, file': File, hw': Hardware)

  /** Runs in a row. The file stays as the last run left it; the hardware may change in between. */
  ghost predicate Runs(valid: string -> bool, runs: seq<Run>) {
    && (forall n :: 0 <= n < |runs| ==>
          var r := runs[n]; RunEffect(valid, r.ecpfs, r.answers, r.file, r.hw, r.ok, r.file', r.hw'))
    && (forall n :: 0 < n < |runs| ==> runs[n].file == runs[n - 1].file')
  }

  /** A recorded address never changes while its ECPF stays discovered, whichever runs fail. */
  lemma {:induction false} RecordedForGood(valid: string -> bool, runs: seq<Run>, i: nat, j: nat, e: string, v: string)
    requires Runs(valid, runs) && i <= j < |runs| && Has(Loaded(runs[i].file), e, v)
    requires forall n :: i <= n <= j ==> e in runs[n].ecpfs
    ensures Has(Loaded(runs[j].file), e, v) && Loaded(runs[j].file)[e][v] == Loaded(runs[i].file)[e][v]
    ensures Has(Loaded(runs[j].file'), e, v) && Loaded(runs[j].file')[e][v] == Loaded(runs[i].file)[e][v]
    decreases j
  {
    hide Assigns, Done;
    if i < j {
      RecordedForGood(valid, runs, i, j - 1, e, v);
    }
  }

  /** So whatever happened in between, the VF has its first recorded address after every successful
      run that finds it, and a failed run gives it no other. */
  lemma SameAddressForGood(valid: string -> bool, runs: seq<Run>, i: nat, j: nat, e: string, v: string)
    requires Runs(valid, runs) && i <= j < |runs| && Has(Loaded(runs[i].file), e, v)
    requires forall n :: i <= n <= j ==> e in runs[n].ecpfs
    ensures runs[j].ok && Found(runs[j].ecpfs, runs[j].answers, e, v) ==>
              Address(runs[j].hw', e, v) == Some(Loaded(runs[i].file)[e][v])
    ensures Address(runs[j].hw', e, v) in {Address(runs[j].hw, e, v), Some(Loaded(runs[i].file)[e][v])}
  {
    RecordedForGood(valid, runs, i, j, e, v);
    var r := runs[j];
    if r.ok && Found(r.ecpfs, r.answers, e, v) {
      var k: nat, y: nat :| Finds(r.ecpfs, r.answers, k, y) && r.ecpfs[k] == e && VfName(y) == v;
      assert InForce(valid, r.file'.mapping, r.hw', r.ecpfs[k], VfName(y));
    }
  }

  /** A new address is recorded by the first successful run that finds the VF. */
  lemma NewAddressIsRecorded(valid: string -> bool, runs: seq<Run>, n: nat, e: string, v: string)
    requires Runs(valid, runs) && n < |runs| && runs[n].ok && Found(runs[n].ecpfs, runs[n].answers, e, v)
    ensures InForce(valid, Loaded(runs[n].file'), runs[n].hw', e, v)
  {
    var r := runs[n];
    var k: nat, y: nat :| Finds(r.ecpfs, r.answers, k, y) && r.ecpfs[k] == e && VfName(y) == v;
    assert InForce(valid, r.file'.mapping, r.hw', r.ecpfs[k], VfName(y));
  }

  /** An empty address passes the check on loading, but no run that finds its VF can succeed: every
      such run fails and leaves the file as it is. */
  lemma {:induction false} EmptyAddressBlocks(valid: string -> bool, runs: seq<Run>, i: nat, j: nat,
                                              e: string, v: string)
    requires Runs(valid, runs) && i <= j < |runs| && !valid("")
    requires Has(Loaded(runs[i].file), e, v) && Loaded(runs[i].file)[e][v] == ""
    requires forall n :: i <= n <= j ==> Found(runs[n].ecpfs, runs[n].answers, e, v)
    ensures !runs[j].ok && runs[j].file' == runs[i].file
    decreases j
  {
    if i < j {
      EmptyAddressBlocks(valid, runs, i, j - 1, e, v);
    }
    if runs[j].ok {
      NewAddressIsRecorded(valid, runs, j, e, v);
    }
  }

  // ---------------------------------------------------------------- one name per position

  function DigitOf(c: char): int {
    c as int - '0' as int
  }

  predicate IsDigit(c: char) {
    '0' <= c <= '9'
  }

  function ReadNumber(s: string): int {
    if s == "" then 0 else 10 * ReadNumber(s[..|s| - 1]) + DigitOf(s[|s| - 1])
  }

  lemma DigitChar(d: nat)
    requires d < 10
    ensures IsDigit("0123456789"[d]) && DigitOf("0123456789"[d]) == d
  {
  }

  /** The digits of a number read back as that number, and do not start with a zero unless it is 0. */
  lemma {:induction false} DigitsReadBack(n: nat)
    ensures ReadNumber(Digits(n)) == n && |Digits(n)| >= 1
    ensures forall i :: 0 <= i < |Digits(n)| ==> IsDigit(Digits(n)[i])
    ensures Digits(n)[0] == '0' ==> n == 0
  {
    if n < 10 {
      DigitChar(n);
      assert Digits(n)[..0] == "";
    } else {
      DigitsReadBack(n / 10);
      DigitChar(n % 10);
      var s := Digits(n);
      assert s[..|s| - 1] == Digits(n / 10) && s[0] == Digits(n / 10)[0];
    }
  }

  /** The VFs of an ECPF are named vf0, vf1 and so on, each number in plain decimal. */
  lemma VfNames(i: nat, j: nat)
    ensures |VfName(i)| > 2 && VfName(i)[..2] == "vf" && ReadNumber(VfName(i)[2..]) == i
    ensures VfName(i)[2] == '0' ==> i == 0
    ensures forall k :: 2 <= k < |VfName(i)| ==> IsDigit(VfName(i)[k])
    ensures VfName(i) == VfName(j) ==> i == j
  {
    DigitsReadBack(i);
    DigitsReadBack(j);
    assert VfName(i)[2..] == Digits(i) && VfName(j)[2..] == Digits(j);
  }

  /** After a successful run every found position has an entry of its own in the file, under its
      number, with the valid address that the VF of that number has. */
  lemma EachPositionRecorded(valid: string -> bool, runs: seq<Run>, n: nat, k: nat, i: nat, j: nat)
    returns (v: string, w: string)
    requires Runs(valid, runs) && n < |runs| && runs[n].ok
    requires Finds(runs[n].ecpfs, runs[n].answers, k, i) && Finds(runs[n].ecpfs, runs[n].answers, k, j)
    ensures |v| > 2 && |w| > 2 && v[..2] == w[..2] == "vf"
    ensures ReadNumber(v[2..]) == i && ReadNumber(w[2..]) == j && (v == w <==> i == j)
    ensures InForce(valid, Loaded(runs[n].file'), runs[n].hw', runs[n].ecpfs[k], v)
    ensures InForce(valid, Loaded(runs[n].file'), runs[n].hw', runs[n].ecpfs[k], w)
  {
    hide VfName, Digits, InForce, Assigns, Extends;
    v, w := VfName(i), VfName(j);
    VfNames(i, j);
    VfNames(j, i);
    var r := runs[n];
    assert InForce(valid, r.file'.mapping, r.hw', r.ecpfs[k], VfName(i));
    assert InForce(valid, r.file'.mapping, r.hw', r.ecpfs[k], VfName(j));
  }
}
