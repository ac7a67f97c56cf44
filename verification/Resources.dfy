/** `validationResourceDefaults`: a safe partition and QoS from the latest platform facts. */
module Resources {
  import opened Text

  datatype Partition = Partition(name: string, allowQos: Option<seq<string>>)

  datatype Capabilities = Capabilities(partitions: seq<Partition>, qos: seq<string>, defaultPartition: string, defaultQos: string)

  datatype Association = Association(partition: Option<string>, qos: Option<seq<string>>, defaultQos: Option<string>)

  /** `nested` is the association list of the safe payload, `root` that of older responses. */
  datatype Entitlement = Entitlement(freshness: string, dataQuality: string, nested: Option<seq<Association>>, root: Option<seq<Association>>)

  datatype Selection = Selection(partition: string, qos: string)

  const EMPTY := Selection("", "")

  /* ---- the resolver ---- */

  function FindPartition(ps: seq<Partition>, name: string): (r: Option<Partition>)
    ensures r.Some? ==> r.value in ps && r.value.name == name
    ensures r == None ==> forall p :: p in ps ==> p.name != name
  {
    if ps == [] then None else if ps[0].name == name then Some(ps[0]) else FindPartition(ps[1..], name)
  }

  predicate Allows(p: Partition, qos: string) {
    p.allowQos == None || qos in p.allowQos.value
  }

  predicate Supports(cap: Capabilities, partition: string, qos: string) {
    var found := FindPartition(cap.partitions, partition);
    found.Some? && qos in cap.qos && Allows(found.value, qos)
  }

  /** The first of the names that the platform knows. */
  function FirstKnown(names: seq<string>, known: seq<string>): (r: Option<string>)
    ensures r.Some? ==> r.value in names && r.value in known
    ensures r == None ==> forall n :: n in names ==> n !in known
  {
    if names == [] then None else if names[0] in known then Some(names[0]) else FirstKnown(names[1..], known)
  }

  predicate Offers(p: Partition, known: seq<string>) {
    match p.allowQos
    case Some(names) => FirstKnown(names, known).Some?
    case None => known != []
  }

  function FirstOffering(ps: seq<Partition>, known: seq<string>): (r: Option<Partition>)
    ensures r.Some? ==> r.value in ps && Offers(r.value, known)
    ensures r == None ==> forall p :: p in ps ==> !Offers(p, known)
  {
    if ps == [] then None else if Offers(ps[0], known) then Some(ps[0]) else FirstOffering(ps[1..], known)
  }

  function CapabilityFallback(cap: Capabilities): Selection {
    if Supports(cap, cap.defaultPartition, cap.defaultQos) then Selection(cap.defaultPartition, cap.defaultQos)
    else
      match FirstOffering(cap.partitions, cap.qos)
      case None => EMPTY
      case Some(first) =>
        var listed := if first.allowQos.Some? then FirstKnown(first.allowQos.value, cap.qos) else None;
        var qos := if listed.Some? then listed.value else if cap.qos != [] then cap.qos[0] else "";
        if qos != "" && Supports(cap, first.name, qos) then Selection(first.name, qos) else EMPTY
  }

  function FirstSupporting(cap: Capabilities, ps: seq<Partition>, qos: string): (r: Option<Partition>)
    ensures r.Some? ==> r.value in ps && Supports(cap, r.value.name, qos)
    ensures r == None ==> forall p :: p in ps ==> !Supports(cap, p.name, qos)
  {
    if ps == [] then None
    else if Supports(cap, ps[0].name, qos) then Some(ps[0])
    else FirstSupporting(cap, ps[1..], qos)
  }

  function RequestedQos(cap: Capabilities, a: Association): Option<string> {
    if a.defaultQos.Some? then a.defaultQos
    else if a.qos.Some? then FirstKnown(a.qos.value, cap.qos)
    else None
  }

  /** What one association contributes, if anything. */
  function FromAssociation(cap: Capabilities, a: Association): Option<Selection> {
    var qos := RequestedQos(cap, a);
    if qos == None || qos.value == "" || qos.value !in cap.qos then None
    else if a.partition.Some? && a.partition.value != "" && Supports(cap, a.partition.value, qos.value)
    then Some(Selection(a.partition.value, qos.value))
    else
      match FirstSupporting(cap, cap.partitions, qos.value)
      case Some(p) => Some(Selection(p.name, qos.value))
      case None => None
  }

  function FromAssociations(cap: Capabilities, associations: seq<Association>): Option<Selection> {
    if associations == [] then None
    else
      match FromAssociation(cap, associations[0])
      case Some(s) => Some(s)
      case None => FromAssociations(cap, associations[1..])
  }

  predicate Trustworthy(e: Option<Entitlement>) {
    e.Some? && e.value.freshness == "fresh" && e.value.dataQuality == "authoritative"
  }

  function AssociationsOf(e: Entitlement): seq<Association> {
    if e.nested.Some? then e.nested.value else if e.root.Some? then e.root.value else []
  }

  function ValidationResourceDefaults(capabilities: Option<Capabilities>, entitlement: Option<Entitlement>): Selection {
    match capabilities
    case None => EMPTY
    case Some(cap) =>
      if Trustworthy(entitlement) then
        match FromAssociations(cap, AssociationsOf(entitlement.value))
        case Some(s) => s
        case None => CapabilityFallback(cap)
      else CapabilityFallback(cap)
  }

  /* ---- the validator ---- */

  predicate SelectionValid(cap: Capabilities, partition: string, qos: string) {
    var selected := FindPartition(cap.partitions, Trim(partition));
    && selected.Some?
    && Trim(qos) in cap.qos
    && (selected.value.allowQos == None || Trim(qos) in selected.value.allowQos.value)
  }

  /** Position `i` holds the first partition of this name. */
  predicate FirstNamed(cap: Capabilities, name: string, i: int) {
    0 <= i < |cap.partitions| && cap.partitions[i].name == name && forall j :: 0 <= j < i ==> cap.partitions[j].name != name
  }

  /** The platform knows the QoS, and the first partition of the name lists it or lists none. */
  ghost predicate Permits(cap: Capabilities, name: string, qos: string) {
    && qos in cap.qos
    && exists i :: FirstNamed(cap, name, i)
         && (cap.partitions[i].allowQos == None || qos in cap.partitions[i].allowQos.value)
  }

  /** Resolver and validator ask the same of a pair, but for the blanks the validator strips. */
  lemma SupportsExactly(cap: Capabilities, partition: string, qos: string)
    ensures Supports(cap, partition, qos) <==> Permits(cap, partition, qos)
    ensures SelectionValid(cap, partition, qos) <==> Permits(cap, Trim(partition), Trim(qos))
  {
    FindExactly(cap, partition);
    FindExactly(cap, Trim(partition));
  }

  lemma FindExactly(cap: Capabilities, name: string)
    ensures forall i :: FirstNamed(cap, name, i) ==> FindPartition(cap.partitions, name) == Some(cap.partitions[i])
    ensures FindPartition(cap.partitions, name).Some? ==> exists i :: FirstNamed(cap, name, i)
  {
    forall i | FirstNamed(cap, name, i)
      ensures FindPartition(cap.partitions, name) == Some(cap.partitions[i])
    {
      FindAt(cap.partitions, i);
    }
    if FindPartition(cap.partitions, name).Some? {
      var k :| 0 <= k < |cap.partitions| && cap.partitions[k] == FindPartition(cap.partitions, name).value;
      var j := FindPlace(cap.partitions, k);
      assert FirstNamed(cap, name, j);
    }
  }

  /* ---- soundness and completeness ---- */

  /** Distinct partition names; no name empty or with blanks around it. */
  ghost predicate NamesOk(cap: Capabilities) {
    && (forall i, j :: 0 <= i < j < |cap.partitions| ==> cap.partitions[i].name != cap.partitions[j].name)
    && (forall p :: p in cap.partitions ==> p.name != "" && Trimmed(p.name))
    && (forall q :: q in cap.qos ==> q != "" && Trimmed(q))
  }

  lemma {:induction false} AssociationsSound(cap: Capabilities, associations: seq<Association>)
    ensures var r := FromAssociations(cap, associations); r.Some? ==> Supports(cap, r.value.partition, r.value.qos)
  {
    if associations != [] {
      AssociationsSound(cap, associations[1..]);
    }
  }

  /** Whatever the inputs: the empty pair or a supported one. */
  lemma NeverUnsupported(cap: Capabilities, entitlement: Option<Entitlement>)
    ensures var r := ValidationResourceDefaults(Some(cap), entitlement); r == EMPTY || Supports(cap, r.partition, r.qos)
  {
    if Trustworthy(entitlement) {
      AssociationsSound(cap, AssociationsOf(entitlement.value));
    }
  }

  lemma {:induction false} FindOwn(ps: seq<Partition>, i: nat)
    requires i < |ps| && forall j, k :: 0 <= j < k < |ps| ==> ps[j].name != ps[k].name
    ensures FindPartition(ps, ps[i].name) == Some(ps[i])
  {
    if i > 0 {
      FindOwn(ps[1..], i - 1);
    }
  }

  lemma OwnName(cap: Capabilities, p: Partition)
    requires NamesOk(cap) && p in cap.partitions
    ensures FindPartition(cap.partitions, p.name) == Some(p)
  {
    var i :| 0 <= i < |cap.partitions| && cap.partitions[i] == p;
    FindOwn(cap.partitions, i);
  }

  /** The fallback finds a pair whenever there is one. */
  lemma FallbackComplete(cap: Capabilities, partition: string, qos: string)
    requires NamesOk(cap) && Supports(cap, partition, qos)
    ensures CapabilityFallback(cap) != EMPTY
  {
    var p := FindPartition(cap.partitions, partition).value;
    assert p.allowQos.Some? ==> qos in p.allowQos.value && qos in cap.qos;
    assert Offers(p, cap.qos);
    var first := FirstOffering(cap.partitions, cap.qos).value;
    OwnName(cap, first);
    assert cap.qos[0] in cap.qos;
  }

  lemma EmptyUnsupported(cap: Capabilities)
    requires NamesOk(cap)
    ensures !Supports(cap, "", "")
  {
  }

  lemma ValidWhenSupported(cap: Capabilities, partition: string, qos: string)
    requires NamesOk(cap) && Supports(cap, partition, qos)
    ensures SelectionValid(cap, partition, qos)
  {
    TrimFixes(partition);
    TrimFixes(qos);
  }

  predicate Entitled(e: Option<Entitlement>, associations: seq<Association>) {
    && e.Some? && e.value.freshness == "fresh" && e.value.dataQuality == "authoritative"
    && (e.value.nested == Some(associations) || (e.value.nested == None && e.value.root == Some(associations)))
  }

  /** The result is a selection the validator accepts, or it is empty exactly because the platform
      supports no pair at all; entitlements can neither break that nor, unless fresh and
      authoritative, make any difference. */
  lemma DefaultsSoundComplete(cap: Capabilities, entitlement: Option<Entitlement>)
    requires NamesOk(cap)
    ensures var r := ValidationResourceDefaults(Some(cap), entitlement);
      if r == EMPTY then forall p, q :: !Supports(cap, p, q) else SelectionValid(cap, r.partition, r.qos)
    ensures (forall associations :: !Entitled(entitlement, associations)) ==>
      ValidationResourceDefaults(Some(cap), entitlement) == ValidationResourceDefaults(Some(cap), None)
  {
    var r := ValidationResourceDefaults(Some(cap), entitlement);
    NeverUnsupported(cap, entitlement);
    EmptyUnsupported(cap);
    EntitledIs(entitlement);
    if r == EMPTY {
      if Trustworthy(entitlement) {
        AssociationsSound(cap, AssociationsOf(entitlement.value));
      }
      forall p, q
        ensures !Supports(cap, p, q)
      {
        if Supports(cap, p, q) {
          FallbackComplete(cap, p, q);
        }
      }
    } else {
      ValidWhenSupported(cap, r.partition, r.qos);
    }
  }

  lemma EntitledIs(e: Option<Entitlement>)
    ensures Trustworthy(e) ==> AssociationsOf(e.value) == [] || Entitled(e, AssociationsOf(e.value))
    ensures forall associations :: Entitled(e, associations) ==> Trustworthy(e) && AssociationsOf(e.value) == associations
  {
  }

  /** The QoS an association asks for: its default, whether known or not, else the first it lists that
      the platform knows. */
  predicate Wants(cap: Capabilities, a: Association, qos: string) {
    match a.defaultQos
    case Some(own) => qos == own
    case None => a.qos.Some? && exists k :: 0 <= k < |a.qos.value| && a.qos.value[k] == qos && FirstIn(a.qos.value, cap.qos, k)
  }

  lemma WantsIs(cap: Capabilities, a: Association)
    ensures forall q :: Wants(cap, a, q) <==> RequestedQos(cap, a) == Some(q)
  {
    if a.defaultQos.None? && a.qos.Some? {
      forall k | FirstIn(a.qos.value, cap.qos, k)
        ensures FirstKnown(a.qos.value, cap.qos) == Some(a.qos.value[k])
      {
        FirstKnownAt(a.qos.value, cap.qos, k);
      }
      if FirstKnown(a.qos.value, cap.qos).Some? {
        var k := KnownPlace(a.qos.value, cap.qos);
      }
    }
  }

  /** An association is usable when some partition supports the QoS it asks for. */
  ghost predicate Usable(cap: Capabilities, a: Association) {
    exists q, p :: p in cap.partitions && Wants(cap, a, q) && Supports(cap, p.name, q)
  }

  /** No partition or QoS without a name. */
  ghost predicate Named(cap: Capabilities) {
    (forall p :: p in cap.partitions ==> p.name != "") && "" !in cap.qos
  }

  /** Position `i` holds the first partition that supports the QoS. */
  predicate FirstSupports(cap: Capabilities, qos: string, i: int) {
    0 <= i < |cap.partitions| && Supports(cap, cap.partitions[i].name, qos)
    && forall j :: 0 <= j < i ==> !Supports(cap, cap.partitions[j].name, qos)
  }

  lemma {:induction false} FirstSupportingAt(cap: Capabilities, ps: seq<Partition>, qos: string, i: nat)
    requires i < |ps| && Supports(cap, ps[i].name, qos) && forall j :: 0 <= j < i ==> !Supports(cap, ps[j].name, qos)
    ensures FirstSupporting(cap, ps, qos) == Some(ps[i])
  {
    if i > 0 {
      assert !Supports(cap, ps[0].name, qos);
      FirstSupportingAt(cap, ps[1..], qos, i - 1);
    }
  }

  /** The pair an association stands for: the QoS it asks for with its own partition when that
      supports it, else with the first partition that does. */
  ghost predicate StandsFor(cap: Capabilities, a: Association, s: Selection) {
    && Wants(cap, a, s.qos) && Supports(cap, s.partition, s.qos)
    && if a.partition.Some? && Supports(cap, a.partition.value, s.qos) then a.partition == Some(s.partition)
       else forall i :: FirstSupports(cap, s.qos, i) ==> s.partition == cap.partitions[i].name
  }

  /** An association contributes exactly when it is usable, and then the pair it stands for. */
  lemma UsableContributes(cap: Capabilities, a: Association)
    requires Named(cap)
    ensures FromAssociation(cap, a).Some? <==> Usable(cap, a)
    ensures FromAssociation(cap, a).Some? ==> StandsFor(cap, a, FromAssociation(cap, a).value)
  {
    hide Wants;
    WantsIs(cap, a);
    if a.partition.Some? && FindPartition(cap.partitions, a.partition.value).Some? {
      var own := FindPartition(cap.partitions, a.partition.value).value;
      assert own in cap.partitions && own.name == a.partition.value;
    }
    if FromAssociation(cap, a).Some? {
      var qos := RequestedQos(cap, a).value;
      forall i | FirstSupports(cap, qos, i)
        ensures FirstSupporting(cap, cap.partitions, qos) == Some(cap.partitions[i])
      {
        FirstSupportingAt(cap, cap.partitions, qos, i);
      }
    }
  }

  /** The first usable association decides. */
  lemma {:induction false} FirstUsableDecides(cap: Capabilities, associations: seq<Association>, i: nat)
    requires Named(cap) && i < |associations| && Usable(cap, associations[i])
    requires forall j :: 0 <= j < i ==> !Usable(cap, associations[j])
    ensures FromAssociations(cap, associations) == FromAssociation(cap, associations[i])
    ensures FromAssociations(cap, associations).Some? && StandsFor(cap, associations[i], FromAssociations(cap, associations).value)
  {
    hide Usable, StandsFor;
    UsableContributes(cap, associations[0]);
    if i > 0 {
      assert !Usable(cap, associations[0]);
      FirstUsableDecides(cap, associations[1..], i - 1);
    }
  }

  /** What is resolved for a fresh and authoritative entitlement: the pair that its first usable
      association stands for, the nested list taking precedence over the root one. */
  lemma EntitledDecides(cap: Capabilities, entitlement: Option<Entitlement>, associations: seq<Association>, i: nat)
    requires Named(cap) && Entitled(entitlement, associations)
    requires i < |associations| && Usable(cap, associations[i]) && forall j :: 0 <= j < i ==> !Usable(cap, associations[j])
    ensures StandsFor(cap, associations[i], ValidationResourceDefaults(Some(cap), entitlement))
  {
    hide Usable, StandsFor, Entitled;
    EntitledIs(entitlement);
    FirstUsableDecides(cap, associations, i);
  }

  /** Position `i` holds the first partition of the platform that offers a QoS it knows. */
  predicate FirstOffers(cap: Capabilities, i: nat) {
    i < |cap.partitions| && Offers(cap.partitions[i], cap.qos)
    && forall j :: 0 <= j < i ==> !Offers(cap.partitions[j], cap.qos)
  }

  lemma {:induction false} FirstOfferingAt(ps: seq<Partition>, known: seq<string>, i: nat)
    requires i < |ps| && Offers(ps[i], known) && forall j :: 0 <= j < i ==> !Offers(ps[j], known)
    ensures FirstOffering(ps, known) == Some(ps[i])
  {
    if i > 0 {
      assert !Offers(ps[0], known);
      FirstOfferingAt(ps[1..], known, i - 1);
    }
  }

  lemma {:induction false} FirstKnownAt(names: seq<string>, known: seq<string>, i: nat)
    requires i < |names| && names[i] in known && forall j :: 0 <= j < i ==> names[j] !in known
    ensures FirstKnown(names, known) == Some(names[i])
  {
    if i > 0 {
      FirstKnownAt(names[1..], known, i - 1);
    }
  }

  /** Without a usable association the platform's own default is taken when it is supported; else the
      first partition that offers a known QoS, with the first it lists or else the platform's first. */
  lemma FallbackChoice(cap: Capabilities, i: nat)
    requires NamesOk(cap)
    ensures Supports(cap, cap.defaultPartition, cap.defaultQos) ==>
      CapabilityFallback(cap) == Selection(cap.defaultPartition, cap.defaultQos)
    ensures !Supports(cap, cap.defaultPartition, cap.defaultQos) && FirstOffers(cap, i) ==>
      CapabilityFallback(cap).partition == cap.partitions[i].name && cap.qos != []
    ensures !Supports(cap, cap.defaultPartition, cap.defaultQos) && FirstOffers(cap, i) ==>
      match cap.partitions[i].allowQos
      case None => CapabilityFallback(cap).qos == cap.qos[0]
      case Some(names) => forall k :: FirstIn(names, cap.qos, k) ==> CapabilityFallback(cap).qos == names[k]
  {
    if !Supports(cap, cap.defaultPartition, cap.defaultQos) && FirstOffers(cap, i) {
      var p := cap.partitions[i];
      FirstOfferingAt(cap.partitions, cap.qos, i);
      OwnName(cap, p);
      assert cap.qos[0] in cap.qos;
      if p.allowQos.Some? {
        forall k | FirstIn(p.allowQos.value, cap.qos, k)
          ensures FirstKnown(p.allowQos.value, cap.qos) == Some(p.allowQos.value[k])
        {
          FirstKnownAt(p.allowQos.value, cap.qos, k);
        }
      }
    }
  }

  predicate FirstIn(names: seq<string>, known: seq<string>, k: int) {
    0 <= k < |names| && names[k] in known && forall j :: 0 <= j < k ==> names[j] !in known
  }

  /* ---- when a supported pair is missed ---- */

  ghost predicate HasPair(cap: Capabilities) {
    exists p, q :: Supports(cap, p, q)
  }

  /** No trustworthy entitlement, or none of its associations usable. */
  ghost predicate NothingUsable(cap: Capabilities, entitlement: Option<Entitlement>) {
    forall associations, a :: Entitled(entitlement, associations) && a in associations ==> !Usable(cap, a)
  }

  /** The QoS that goes with the first offering partition. */
  predicate GoesWith(cap: Capabilities, i: nat, qos: string)
    requires i < |cap.partitions|
  {
    match cap.partitions[i].allowQos
    case None => cap.qos != [] && qos == cap.qos[0]
    case Some(names) => exists k :: 0 <= k < |names| && names[k] == qos && FirstIn(names, cap.qos, k)
  }

  /** An earlier partition bears the name of the first offering one, and does not allow its QoS. */
  ghost predicate Shadowed(cap: Capabilities) {
    exists j, i, qos :: 0 <= j < i && FirstOffers(cap, i) && Shadows(cap, j, i) && GoesWith(cap, i, qos) && !Allows(cap.partitions[j], qos)
  }

  /** `j` is the first partition with the name of `i`. */
  predicate Shadows(cap: Capabilities, j: nat, i: nat) {
    && j <= i < |cap.partitions| && cap.partitions[j].name == cap.partitions[i].name
    && forall k :: 0 <= k < j ==> cap.partitions[k].name != cap.partitions[i].name
  }

  lemma {:induction false} FindAt(ps: seq<Partition>, j: nat)
    requires j < |ps| && forall k :: 0 <= k < j ==> ps[k].name != ps[j].name
    ensures FindPartition(ps, ps[j].name) == Some(ps[j])
  {
    if j > 0 {
      FindAt(ps[1..], j - 1);
    }
  }

  lemma {:induction false} FindPlace(ps: seq<Partition>, i: nat) returns (j: nat)
    requires i < |ps|
    ensures j <= i && ps[j].name == ps[i].name && forall k :: 0 <= k < j ==> ps[k].name != ps[i].name
  {
    j := 0;
    if ps[0].name != ps[i].name {
      var m := FindPlace(ps[1..], i - 1);
      j := m + 1;
    }
  }

  lemma {:induction false} OfferingPlace(ps: seq<Partition>, known: seq<string>) returns (i: nat)
    requires FirstOffering(ps, known).Some?
    ensures i < |ps| && Offers(ps[i], known) && forall j :: 0 <= j < i ==> !Offers(ps[j], known)
  {
    i := 0;
    if !Offers(ps[0], known) {
      var m := OfferingPlace(ps[1..], known);
      i := m + 1;
    }
  }

  lemma {:induction false} KnownPlace(names: seq<string>, known: seq<string>) returns (k: nat)
    requires FirstKnown(names, known).Some?
    ensures FirstIn(names, known, k) && FirstKnown(names, known) == Some(names[k])
  {
    k := 0;
    if names[0] !in known {
      var m := KnownPlace(names[1..], known);
      k := m + 1;
    }
  }

  /** The first offering partition has one QoS that goes with it. */
  lemma WithQos(cap: Capabilities, i: nat) returns (qos: string)
    requires FirstOffers(cap, i)
    ensures qos in cap.qos && Allows(cap.partitions[i], qos) && GoesWith(cap, i, qos)
    ensures forall q :: GoesWith(cap, i, q) ==> q == qos
    ensures !Supports(cap, cap.defaultPartition, cap.defaultQos) && qos != "" ==>
      CapabilityFallback(cap) == if Supports(cap, cap.partitions[i].name, qos) then Selection(cap.partitions[i].name, qos) else EMPTY
  {
    FirstOfferingAt(cap.partitions, cap.qos, i);
    match cap.partitions[i].allowQos
    case None => qos := cap.qos[0];
    case Some(names) =>
      var k := KnownPlace(names, cap.qos);
      qos := names[k];
  }

  /** The name of the first offering partition supports its QoS unless it is shadowed. */
  lemma ShadowDecides(cap: Capabilities, i: nat, qos: string)
    requires FirstOffers(cap, i) && GoesWith(cap, i, qos) && qos in cap.qos && Allows(cap.partitions[i], qos)
    requires forall q :: GoesWith(cap, i, q) ==> q == qos
    ensures Supports(cap, cap.partitions[i].name, qos) <==> !Shadowed(cap)
  {
    var j := FindPlace(cap.partitions, i);
    FindAt(cap.partitions, j);
    if !Supports(cap, cap.partitions[i].name, qos) {
      assert Shadows(cap, j, i) && !Allows(cap.partitions[j], qos);
    }
    if Shadowed(cap) {
      var j', i', q :| 0 <= j' < i' && FirstOffers(cap, i') && Shadows(cap, j', i') && GoesWith(cap, i', q) && !Allows(cap.partitions[j'], q);
      assert i' == i && j' == j;
    }
  }

  lemma {:induction false} NothingFrom(cap: Capabilities, associations: seq<Association>)
    requires Named(cap)
    ensures FromAssociations(cap, associations) == None <==> forall a :: a in associations ==> !Usable(cap, a)
  {
    if associations != [] {
      UsableContributes(cap, associations[0]);
      NothingFrom(cap, associations[1..]);
      assert associations[0] in associations;
      assert forall a :: a in associations <==> a == associations[0] || a in associations[1..];
    }
  }

  lemma FallbackMisses(cap: Capabilities)
    requires Named(cap) && HasPair(cap)
    ensures CapabilityFallback(cap) == EMPTY <==> !Supports(cap, cap.defaultPartition, cap.defaultQos) && Shadowed(cap)
  {
    var p, q :| Supports(cap, p, q);
    var offering := FindPartition(cap.partitions, p).value;
    assert offering.allowQos.Some? ==> q in offering.allowQos.value && q in cap.qos;
    assert Offers(offering, cap.qos);
    var i := OfferingPlace(cap.partitions, cap.qos);
    var qos := WithQos(cap, i);
    ShadowDecides(cap, i, qos);
    assert cap.partitions[i] in cap.partitions;
    if Supports(cap, cap.defaultPartition, cap.defaultQos) {
      var own := FindPartition(cap.partitions, cap.defaultPartition).value;
      assert own in cap.partitions;
    }
  }

  /** With names that are only not empty, the result misses a supported pair if and only if nothing
      usable is entitled, there is a pair, the platform's default is none, and the first offering
      partition is shadowed by a namesake. */
  lemma MissesExactly(cap: Capabilities, entitlement: Option<Entitlement>)
    requires Named(cap)
    ensures (ValidationResourceDefaults(Some(cap), entitlement) == EMPTY && HasPair(cap)) <==>
      && NothingUsable(cap, entitlement) && HasPair(cap)
      && !Supports(cap, cap.defaultPartition, cap.defaultQos) && Shadowed(cap)
  {
    if HasPair(cap) {
      FallbackMisses(cap);
    }
    if Trustworthy(entitlement) {
      var associations := AssociationsOf(entitlement.value);
      NothingFrom(cap, associations);
      AssociationsSound(cap, associations);
      EntitledIs(entitlement);
      if FromAssociations(cap, associations).Some? {
        var r := FromAssociations(cap, associations).value;
        assert FindPartition(cap.partitions, r.partition).value in cap.partitions;
      }
    }
  }

  /** With a repeated partition name the fallback can miss a supported pair. */
  lemma RepeatedNameHides()
    ensures var cap := Capabilities([Partition("p", Some([])), Partition("p", None), Partition("r", None)], ["q"], "", "");
      ValidationResourceDefaults(Some(cap), None) == EMPTY && Supports(cap, "r", "q")
  {
    var ps := [Partition("p", Some([])), Partition("p", None), Partition("r", None)];
    assert ps[1..] == [Partition("p", None), Partition("r", None)];
    assert ps[1..][1..] == [Partition("r", None)];
    assert FirstOffering(ps, ["q"]) == Some(Partition("p", None));
    assert FindPartition(ps, "p") == Some(Partition("p", Some([])));
    assert FindPartition(ps, "r") == Some(Partition("r", None));
  }
}
