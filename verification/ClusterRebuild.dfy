/** Rebuilding the box's cluster with its certificate Secrets carried over (scripts/cluster.py rebuild,
    scripts/cluster_secrets.py export, write_atomic, clean, restore, scripts/platform_up.py restore_ca).
    Every external call may fail, or be the run's last. */
module ClusterRebuild {
  import opened Options

  datatype Key = Key(ns: string, name: string)

  const CA := Key("cert-manager", "andara-ca-tls")
  const EDGE := Key("andara-dev", "andara-edge-tls")
  const SECRETS: seq<Key> := [CA, EDGE]

  const LAST_APPLIED := "kubectl.kubernetes.io/last-applied-configuration"
  /** What the old cluster assigned. */
  const DROP: set<string> :=
    {"resourceVersion", "uid", "creationTimestamp", "managedFields", "ownerReferences", "generation", "selfLink"}

  // ----- Secrets ---------------------------------------------------------

  datatype Secret = Secret(
    key: Key, fields: map<string, string>, meta: map<string, string>, annotations: map<string, string>)

  function Clean(s: Secret): Secret {
    s.(fields := s.fields - {"status"}, meta := s.meta - DROP, annotations := s.annotations - {LAST_APPLIED})
  }

  /** The same Secret, whatever either cluster assigned: every field but `status`, every metadata entry outside
      DROP and every annotation but kubectl's own note, in both or in neither and with the same value. */
  ghost predicate SameSecret(a: Secret, b: Secret) {
    && a.key == b.key
    && (forall f | f != "status" :: f in a.fields <==> f in b.fields)
    && (forall f | f != "status" && f in a.fields && f in b.fields :: a.fields[f] == b.fields[f])
    && (forall m | m !in DROP :: m in a.meta <==> m in b.meta)
    && (forall m | m !in DROP && m in a.meta && m in b.meta :: a.meta[m] == b.meta[m])
    && (forall n | n != LAST_APPLIED :: n in a.annotations <==> n in b.annotations)
    && (forall n | n != LAST_APPLIED && n in a.annotations && n in b.annotations ::
          a.annotations[n] == b.annotations[n])
  }

  ghost predicate Kept(now: Option<Secret>, was: Option<Secret>) {
    (now.Some? <==> was.Some?) && (now.Some? ==> SameSecret(now.value, was.value))
  }

  /** The certificate's data and the cluster's labels are not the old cluster's bookkeeping. */
  lemma SameData(a: Secret, b: Secret)
    requires SameSecret(a, b)
    ensures "data" in a.fields <==> "data" in b.fields
    ensures "data" in a.fields && "data" in b.fields ==> a.fields["data"] == b.fields["data"]
    ensures "labels" in a.meta <==> "labels" in b.meta
    ensures "labels" in a.meta && "labels" in b.meta ==> a.meta["labels"] == b.meta["labels"]
  {
    assert "data"[0] != "status"[0];
    assert "labels" !in DROP;
  }

  /** clean: the same Secret with nothing of the old cluster's left. */
  lemma CleanIs(s: Secret)
    ensures SameSecret(Clean(s), s)
    ensures "status" !in Clean(s).fields && Clean(s).meta.Keys !! DROP && LAST_APPLIED !in Clean(s).annotations
  {
    hide DROP; hide LAST_APPLIED;
  }

  /** Two Secrets clean to one exactly when they are the same. */
  lemma CleanIff(a: Secret, b: Secret)
    ensures Clean(a) == Clean(b) <==> SameSecret(a, b)
  {
    CleanIs(a);
    CleanIs(b);
    hide DROP; hide LAST_APPLIED;
    var c, d := Clean(a), Clean(b);
    if c == d {
      hide Clean;
      SameThrough(a, b, c);
    }
    if SameSecret(a, b) {
      assert c.fields == d.fields && c.meta == d.meta && c.annotations == d.annotations;
    }
  }

  lemma SameThrough(a: Secret, b: Secret, c: Secret)
    requires SameSecret(c, a) && SameSecret(c, b)
    ensures SameSecret(a, b)
  {
    hide DROP; hide LAST_APPLIED;
  }

  lemma SameIff()
    ensures forall a, b :: SameSecret(a, b) <==> Clean(a) == Clean(b)
  {
    forall a, b ensures SameSecret(a, b) <==> Clean(a) == Clean(b) { CleanIff(a, b); }
  }

  /** What the API server holds once a cleaned Secret is applied: its own bookkeeping and kubectl's note
      beside it. */
  function Applied(s: Secret, given: map<string, string>, note: string): Secret {
    s.(meta := s.meta + (map k | k in given && k in DROP :: given[k]),
       annotations := s.annotations[LAST_APPLIED := note])
  }

  /** Applying a cleaned Secret loses nothing of it. */
  lemma AppliedKeeps(s: Secret, given: map<string, string>, note: string)
    ensures SameSecret(Applied(Clean(s), given, note), s)
  {
    CleanIs(s);
    hide DROP; hide LAST_APPLIED; hide Clean;
  }

  // ----- the box ---------------------------------------------------------

  /** A file's content: a whole export, or one cut short. */
  datatype Content = Whole(secret: Secret) | Part

  datatype Path = Export(name: string) | Temporary(name: string)

  datatype Cluster = Cluster(secrets: map<Key, Secret>, namespaces: set<string>)

  datatype Outcome = Done | Failed

  datatype Status = Written | Absent

  lemma TwoSecrets()
    ensures CA in SECRETS && EDGE in SECRETS && CA.name != EDGE.name && CA.ns != EDGE.ns
    ensures forall k | k in SECRETS :: k == CA || k == EDGE
  {
    assert SECRETS[0] == CA && SECRETS[1] == EDGE;
    assert "andara-ca-tls"[7] == 'c' && "andara-edge-tls"[7] == 'e';
    assert "cert-manager"[0] == 'c' && "andara-dev"[0] == 'a';
  }

  lemma SameName(a: Key, b: Key)
    requires a in SECRETS && b in SECRETS && a.name == b.name
    ensures a == b
  {
    TwoSecrets();
  }

  class Box {
    var cluster: Option<Cluster>
    var files: map<Path, Content>
    /** How many external calls have failed, or been a run's last. */
    ghost var failures: nat

    /** No export is ever partial, and each is of the Secret its path names. */
    ghost predicate Valid()
      reads `cluster, `files
    {
      && (forall k | k in SECRETS && Export(k.name) in files ::
            files[Export(k.name)].Whole? && files[Export(k.name)].secret.key == k)
      && (cluster.Some? ==> forall k | k in cluster.value.secrets :: cluster.value.secrets[k].key == k)
    }

    /** The Secret the box holds: the live one, or else the export's. */
    ghost function Held(k: Key): Option<Secret>
      reads `cluster, `files
    {
      if cluster.Some? && k in cluster.value.secrets then Some(cluster.value.secrets[k])
      else if Export(k.name) in files && files[Export(k.name)].Whole? then Some(files[Export(k.name)].secret)
      else None
    }

    ghost predicate Live(k: Key)
      reads `cluster, `files
    {
      cluster.Some? && k in cluster.value.secrets
    }

    constructor (cluster: Option<Cluster>)
      requires cluster.Some? ==> forall k | k in cluster.value.secrets :: cluster.value.secrets[k].key == k
      ensures Valid() && this.cluster == cluster && files == map[] && failures == 0
    {
      this.cluster := cluster;
      files, failures := map[], 0;
    }

    /** An external call. */
    method Call() returns (cut: bool)
      modifies this`failures
      ensures failures == old(failures) + if cut then 1 else 0
    {
      cut := *;
      failures := failures + if cut then 1 else 0;
    }

    /** Through a temporary file, renamed when whole. Cut off anywhere, at most the temporary file is left and
        the export is as it was. */
    method WriteAtomic(k: Key, secret: Secret) returns (out: Outcome)
      modifies this`files, this`failures
      ensures old(failures) <= failures && (out == Failed <==> failures > old(failures))
      ensures out == Done ==> files == old(files)[Export(k.name) := Whole(secret)] - {Temporary(k.name)}
      ensures out == Failed ==>
                || files == old(files) || files == old(files) - {Temporary(k.name)}
                || files == old(files)[Temporary(k.name) := Part]
                || files == old(files)[Temporary(k.name) := Whole(secret)]
    {
      var cut := Call();
      if cut { return Failed; }
      files := files[Temporary(k.name) := Part];
      cut := Call();
      if !cut {
        files := files[Temporary(k.name) := Whole(secret)];
        cut := Call();
      }
      if cut {
        var unlinked: bool := *;
        if unlinked { files := files - {Temporary(k.name)}; }
        return Failed;
      }
      files := files[Export(k.name) := files[Temporary(k.name)]] - {Temporary(k.name)};
      return Done;
    }

    /** What a stopped or finished export leaves of one Secret. */
    ghost predicate FileKept(k: Key, was: map<Path, Content>)
      reads `cluster, `files
    {
      var p := Export(k.name);
      || ((p in files <==> p in was) && (p in files ==> files[p] == was[p]))
      || (Live(k) && p in files && files[p] == Whole(cluster.value.secrets[k]))
    }

    ghost predicate Exported(k: Key)
      reads `cluster, `files
    {
      Live(k) ==> Export(k.name) in files && files[Export(k.name)] == Whole(cluster.value.secrets[k])
    }

    /** One Secret: read, and written if it is there. None is a failure. */
    method ExportOne(k: Key) returns (status: Option<Status>)
      requires Valid() && cluster.Some? && k in SECRETS
      modifies this`files, this`failures
      ensures Valid() && FileKept(k, old(files))
      ensures forall j | j in SECRETS && j != k ::
                (Export(j.name) in files <==> Export(j.name) in old(files)) &&
                (Export(j.name) in files ==> files[Export(j.name)] == old(files)[Export(j.name)])
      ensures status.Some? ==> Exported(k) && (status.value == Written <==> Live(k))
      ensures old(failures) <= failures && (status.None? <==> failures > old(failures))
    {
      forall j | j in SECRETS && j.name == k.name ensures j == k { SameName(j, k); }
      hide SECRETS; hide CA; hide EDGE;
      var unread := Call();
      if unread { return None; }
      if k !in cluster.value.secrets { return Some(Absent); }
      var written := WriteAtomic(k, cluster.value.secrets[k]);
      return if written == Failed then None else Some(Written);
    }

    /** Every Secret that exists, written; one the cluster does not have leaves its earlier export. */
    method ExportAll() returns (out: Outcome, result: map<Key, Status>)
      requires Valid() && cluster.Some?
      modifies this`files, this`failures
      ensures Valid() && forall k | k in SECRETS :: FileKept(k, old(files))
      ensures out == Done ==>
                && result.Keys == (set k | k in SECRETS)
                && forall k | k in SECRETS :: Exported(k) && (result[k] == Written <==> Live(k))
      ensures old(failures) <= failures && (out == Failed <==> failures > old(failures))
    {
      hide SECRETS; hide CA; hide EDGE; hide Valid;
      result := map[];
      ghost var was := files;
      for i := 0 to |SECRETS|
        invariant failures == old(failures)
        invariant Valid() && forall k | k in SECRETS :: FileKept(k, was)
        invariant forall k | k in SECRETS && k !in SECRETS[..i] ::
                    && (Export(k.name) in files <==> Export(k.name) in was)
                    && (Export(k.name) in files ==> files[Export(k.name)] == was[Export(k.name)])
        invariant result.Keys == set k | k in SECRETS[..i]
        invariant forall k | k in SECRETS[..i] :: Exported(k) && (result[k] == Written <==> Live(k))
      {
        var k := SECRETS[i];
        assert SECRETS[..i + 1] == SECRETS[..i] + [k];
        Once(i);
        var status := ExportOne(k);
        if status.None? { return Failed, result; }
        result := result[k := status.value];
      }
      assert SECRETS[..|SECRETS|] == SECRETS;
      out := Done;
    }

    /** down: it looks at nothing, so what was live is kept only where it was exported. */
    method Down() returns (out: Outcome)
      requires Valid()
      modifies this`cluster, this`failures
      ensures Valid() && (cluster == old(cluster) || cluster == None) && (out == Done ==> cluster == None)
      ensures forall k | k in SECRETS && (old(Exported(k)) || cluster == old(cluster)) :: Kept(Held(k), old(Held(k)))
      ensures old(failures) <= failures && (out == Failed <==> failures > old(failures))
    {
      SameIff();
      hide SECRETS; hide Clean; hide SameSecret;
      var cut := Call();
      if cut { return Failed; }
      cluster := None;
      cut := Call();
      return if cut then Failed else Done;
    }

    method Up() returns (out: Outcome)
      requires Valid()
      modifies this`cluster, this`failures
      ensures Valid() && (old(cluster).Some? ==> cluster == old(cluster)) && (out == Done ==> cluster.Some?)
      ensures forall k | k in SECRETS :: Kept(Held(k), old(Held(k)))
      ensures old(failures) <= failures && (out == Failed <==> failures > old(failures))
      ensures out == Done && old(cluster).None? ==> cluster == Some(Cluster(map[], {}))
    {
      SameIff();
      hide Clean; hide SameSecret;
      var cut := Call();
      if cut { return Failed; }
      if cluster.None? { cluster := Some(Cluster(map[], {})); }
      cut := Call();
      return if cut then Failed else Done;
    }

    /** A live Secret that restore would lay its export over. */
    ghost predicate Overlaid(k: Key, namespaces: set<string>)
      reads `cluster, `files
    {
      k.ns in namespaces && Live(k) && Export(k.name) in files
    }

    /** An export whose namespace the cluster does not have. */
    ghost predicate Homeless(namespaces: set<string>)
      reads `cluster, `files
      requires cluster.Some?
    {
      exists k | k in SECRETS :: k.ns in namespaces && Export(k.name) in files && k.ns !in cluster.value.namespaces
    }

    /** restore, of the namespaces named: every target namespace is looked for before anything is applied. */
    method Restore(namespaces: set<string>) returns (out: Outcome)
      requires Valid() && cluster.Some?
      modifies this`cluster, this`failures
      ensures Valid() && cluster.Some?
      ensures forall k | k in SECRETS && !old(Overlaid(k, namespaces)) :: Kept(Held(k), old(Held(k)))
      ensures forall k | k in SECRETS && k.ns !in namespaces :: Live(k) == old(Live(k))
      ensures out == Done ==> forall k | k in SECRETS && k.ns in namespaces && Export(k.name) in files ::
                                Live(k) && Carries(cluster.value.secrets[k], files[Export(k.name)].secret)
      ensures old(failures) <= failures && (out == Failed <==> failures > old(failures) || old(Homeless(namespaces)))
      ensures old(Homeless(namespaces)) ==> cluster == old(cluster)
      ensures cluster.value.namespaces == old(cluster).value.namespaces
    {
      SameIff();
      hide SECRETS; hide Clean; hide Applied; hide CA; hide EDGE; hide Carries; hide SameSecret;
      hide Homeless; hide Held;
      var housed := Housed(namespaces);
      if !housed { return Failed; }
      for i := 0 to |SECRETS|
        invariant failures == old(failures)
        invariant Valid() && cluster.Some? && cluster.value.namespaces == old(cluster).value.namespaces
        invariant forall k | k in SECRETS && !old(Overlaid(k, namespaces)) :: Kept(Held(k), old(Held(k)))
        invariant forall k | k in SECRETS && (k.ns !in namespaces || k !in SECRETS[..i]) :: Live(k) == old(Live(k))
        invariant forall k | k in SECRETS[..i] && k.ns in namespaces && Export(k.name) in files ::
                    Live(k) && Carries(cluster.value.secrets[k], files[Export(k.name)].secret)
      {
        var k := SECRETS[i];
        assert SECRETS[..i + 1] == SECRETS[..i] + [k];
        Once(i);
        if k.ns in namespaces && Export(k.name) in files {
          var restored := RestoreOne(k);
          if !restored { return Failed; }
        }
      }
      assert SECRETS[..|SECRETS|] == SECRETS;
      out := Done;
    }

    /** One export applied and read back. */
    method RestoreOne(k: Key) returns (restored: bool)
      requires Valid() && cluster.Some? && k in SECRETS && Export(k.name) in files
      modifies this`cluster, this`failures
      ensures Valid() && cluster.Some? && cluster.value.namespaces == old(cluster).value.namespaces
      ensures old(failures) <= failures && (!restored <==> failures > old(failures))
      ensures !old(Live(k)) ==> Kept(Held(k), old(Held(k)))
      ensures forall j | j != k :: Live(j) == old(Live(j)) && Kept(Held(j), old(Held(j))) &&
                                   (Live(j) ==> cluster.value.secrets[j] == old(cluster).value.secrets[j])
      ensures restored ==> Live(k) && Carries(cluster.value.secrets[k], files[Export(k.name)].secret)
    {
      SameIff();
      hide SECRETS; hide Clean; hide Carries; hide SameSecret;
      var secret := files[Export(k.name)].secret;
      var refused := Call();
      if refused || secret.key != k { return false; }
      Apply(k, secret);
      var unread := Call();
      return !unread;
    }

    /** Every target namespace, looked for. */
    method Housed(namespaces: set<string>) returns (housed: bool)
      requires cluster.Some?
      modifies this`failures
      ensures old(failures) <= failures && (!housed <==> failures > old(failures) || Homeless(namespaces))
    {
      hide SECRETS;
      for i := 0 to |SECRETS|
        invariant failures == old(failures)
        invariant forall j | 0 <= j < i :: SECRETS[j].ns in namespaces && Export(SECRETS[j].name) in files ==>
                                           SECRETS[j].ns in cluster.value.namespaces
      {
        var k := SECRETS[i];
        if k.ns in namespaces && Export(k.name) in files {
          var unread := Call();
          if unread || k.ns !in cluster.value.namespaces { return false; }
        }
      }
      return true;
    }

    /** kubectl apply of a cleaned Secret: as it is where there is none, over the one there otherwise. */
    method Apply(k: Key, secret: Secret)
      requires Valid() && cluster.Some? && secret.key == k
      modifies this`cluster
      ensures Valid() && cluster.Some? && Live(k) && Carries(cluster.value.secrets[k], secret)
      ensures !old(Live(k)) ==> Kept(Held(k), Some(secret))
      ensures forall j | j != k :: Live(j) == old(Live(j)) && Kept(Held(j), old(Held(j))) &&
                                   (Live(j) ==> cluster.value.secrets[j] == old(cluster).value.secrets[j])
      ensures cluster.value.namespaces == old(cluster).value.namespaces
    {
      SameIff();
      hide Clean; hide AppliedTo; hide SECRETS; hide Carries; hide SameSecret;
      var given: map<string, string> := *;
      var note: string := *;
      var live := if k in cluster.value.secrets then Some(cluster.value.secrets[k]) else None;
      AppliedToIs(live, secret, given, note);
      var now := AppliedTo(live, Clean(secret), given, note);
      cluster := Some(cluster.value.(secrets := cluster.value.secrets[k := now]));
    }

    /** restore_ca: the exported root, only when the cluster has none. */
    method RestoreCa() returns (out: Outcome)
      requires Valid() && cluster.Some?
      modifies this`cluster, this`failures
      ensures Valid() && cluster.Some? && forall k | k in SECRETS :: Kept(Held(k), old(Held(k)))
      ensures out == Done ==> Live(CA) || Held(CA) == None
      ensures old(failures) <= failures
      ensures CA.ns in old(cluster).value.namespaces ==> (out == Failed <==> failures > old(failures))
      ensures old(Live(CA)) ==> cluster == old(cluster)
    {
      SameIff();
      hide SECRETS; hide CA; hide EDGE; hide Clean; hide SameSecret;
      hide Carries;
      var unread := Call();
      if unread { return Failed; }
      if CA in cluster.value.secrets { return Done; }
      OnlyCa();
      out := Restore({CA.ns});
    }

    /** private_ca: cert-manager issues a root where there is none live, whatever is exported. */
    method PrivateCa() returns (out: Outcome)
      requires Valid() && cluster.Some?
      modifies this`cluster, this`failures
      ensures Valid() && cluster.Some? && (out == Done ==> Live(CA)) && (old(Live(CA)) ==> cluster == old(cluster))
      ensures forall k | k != CA :: Kept(Held(k), old(Held(k))) && Live(k) == old(Live(k))
      ensures old(failures) <= failures && (out == Failed <==> failures > old(failures))
    {
      SameIff();
      hide SECRETS; hide CA; hide EDGE; hide Clean; hide SameSecret;
      hide Carries;
      var cut := Call();
      if cut { return Failed; }
      if CA !in cluster.value.secrets {
        var root: Secret := *;
        Apply(CA, root.(key := CA));
      }
      cut := Call();
      return if cut then Failed else Done;
    }

    /** rebuild. However it ends, each listed Secret the box held is still held, and a cluster it deleted had
        every live one exported whole; when it completes, the live CA root is the one that was live before it,
        or else the earlier export's. */
    method Rebuild() returns (out: Outcome, ghost deleted: bool)
      requires Valid()
      modifies this
      ensures Valid() && forall k | k in SECRETS && old(Held(k)).Some? :: Kept(Held(k), old(Held(k)))
      ensures out == Done ==>
                && deleted == old(cluster).Some? && Live(CA)
                && (old(Held(CA)).Some? ==> SameSecret(cluster.value.secrets[CA], old(Held(CA)).value))
      ensures old(failures) <= failures && (out == Done <==> failures == old(failures))
      ensures old(cluster).Some? && !deleted ==> cluster == old(cluster)
      ensures deleted ==> old(cluster).Some?
      ensures deleted ==> forall k | k in SECRETS && old(Live(k)) ::
                            Export(k.name) in files && files[Export(k.name)] == Whole(old(cluster).value.secrets[k])
    {
      SameIff();
      TwoSecrets();
      hide SECRETS; hide CA; hide EDGE; hide Clean; hide SameSecret;
      deleted := false;
      if cluster.Some? {
        var exported, result := ExportAll();
        assert forall k | k in SECRETS :: Kept(Held(k), old(Held(k))) by {
          forall k | k in SECRETS ensures Kept(Held(k), old(Held(k))) { assert FileKept(k, old(files)); }
        }
        if exported == Failed || result.Keys != (set k | k in SECRETS) { return Failed, false; }
        var gone := Down();
        deleted := cluster.None?;
        if gone == Failed { return Failed, deleted; }
      }
      out := CreateAndRestore();
    }

    /** The rest of a rebuild: the new cluster, its platform and the root. */
    method CreateAndRestore() returns (out: Outcome)
      requires Valid() && cluster.None? && CA in SECRETS
      modifies this`cluster, this`failures
      ensures Valid() && forall k | k in SECRETS && old(Held(k)).Some? :: Kept(Held(k), old(Held(k)))
      ensures out == Done ==> Live(CA)
      ensures old(failures) <= failures && (out == Failed <==> failures > old(failures))
    {
      SameIff();
      hide SECRETS; hide CA; hide EDGE; hide Clean; hide SameSecret;
      var created := Up();
      if created == Failed { return Failed; }
      var cut := Call();
      if cut { return Failed; }
      cluster := Some(cluster.value.(namespaces := cluster.value.namespaces + {CA.ns}));
      var restored := RestoreCa();
      if restored == Failed { return Failed; }
      var issued := PrivateCa();
      if issued == Failed { return Failed; }
      cut := Call();
      return if cut then Failed else Done;
    }

    /** Any number of rebuilds, each ending as it may: what was held at the first is held at the last, and a
        last one that completes leaves that root live. */
    method Rebuilds(n: nat) returns (outs: seq<Outcome>)
      requires Valid()
      modifies this
      ensures Valid() && |outs| == n && forall k | k in SECRETS && old(Held(k)).Some? :: Kept(Held(k), old(Held(k)))
      ensures n > 0 && outs[n - 1] == Done ==>
                Live(CA) && (old(Held(CA)).Some? ==> SameSecret(cluster.value.secrets[CA], old(Held(CA)).value))
    {
      SameIff();
      TwoSecrets();
      hide SECRETS; hide CA; hide EDGE; hide Clean; hide Valid; hide SameSecret;
      outs := [];
      for i := 0 to n
        invariant Valid() && |outs| == i
        invariant forall k | k in SECRETS && old(Held(k)).Some? :: Kept(Held(k), old(Held(k)))
        invariant i > 0 && outs[i - 1] == Done ==>
                    Live(CA) && (old(Held(CA)).Some? ==> SameSecret(cluster.value.secrets[CA], old(Held(CA)).value))
      {
        var out, _ := Rebuild();
        outs := outs + [out];
      }
    }
  }

  /** Every field, metadata entry and annotation of one Secret, but what its cluster assigned, is in the other. */
  ghost predicate Carries(a: Secret, b: Secret) {
    && (forall f | f in b.fields && f != "status" :: f in a.fields && a.fields[f] == b.fields[f])
    && (forall m | m in b.meta && m !in DROP :: m in a.meta && a.meta[m] == b.meta[m])
    && (forall n | n in b.annotations && n != LAST_APPLIED ::
          n in a.annotations && a.annotations[n] == b.annotations[n])
  }

  /** kubectl apply: over the live Secret, if there is one, nothing of it pruned. */
  function AppliedTo(live: Option<Secret>, c: Secret, given: map<string, string>, note: string): Secret {
    var a := Applied(c, given, note);
    if live.None? then a
    else a.(fields := live.value.fields + a.fields, meta := live.value.meta + a.meta,
            annotations := live.value.annotations + a.annotations)
  }

  lemma AppliedToIs(live: Option<Secret>, s: Secret, given: map<string, string>, note: string)
    ensures var a := AppliedTo(live, Clean(s), given, note);
            a.key == s.key && Carries(a, s) && (live.None? ==> SameSecret(a, s))
  {
    AppliedKeeps(s, given, note);
    AppliedCarries(s, given, note);
    hide Clean; hide Applied; hide DROP; hide LAST_APPLIED;
  }

  lemma AppliedCarries(s: Secret, given: map<string, string>, note: string)
    ensures Carries(Applied(Clean(s), given, note), s)
  {
    AppliedKeeps(s, given, note);
    hide Clean; hide Applied; hide DROP; hide LAST_APPLIED;
  }

  /** A listed Secret is listed once. */
  lemma Once(i: nat)
    requires i < |SECRETS|
    ensures SECRETS[i] !in SECRETS[..i]
  {
    TwoSecrets();
    if i == 1 { assert SECRETS[..1] == [CA]; }
  }

  lemma OnlyCa()
    ensures CA in SECRETS && forall k | k in SECRETS && k.ns in {CA.ns} :: k == CA
  {
    TwoSecrets();
  }
}
