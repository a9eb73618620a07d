// Identifiers that every shift succeeds for: those of other installations when
// they are stored as plain bytes, and those of this one when some field of
// their export may be held by every tier.

module TierReady {
  import opened Bytes
  import opened Ids
  import opened Records
  import opened Strip
  import opened TierCache
  import opened TierPairs

  // ----- identifiers of other installations -----

  ghost function PlainForms(): iset<seq<byte>> {
    iset p: seq<byte> | |p| >= 50 && p[0] == 0
  }

  lemma ForeignIsReady(t: TierData, id: Id, own: seq<byte>)
    requires Hash(id) != own && t.major != 0 && t.extras != [] && t.extras[0] == 0
    requires var p := CacheGet(t.data, id); p == [] || (|p| >= 50 && p[0] == 0)
    ensures Ready(t, id, own, PlainForms())
  {
    hide CacheGet, Hash;
    forall p | p in PlainForms()
      ensures Sends(p, id, own, t, PlainForms())
    {
    }
  }

  // ----- identifiers of this installation -----

  function RulesOf(t: TierData): Transport.Rules {
    Transport.Rules([(t.major, t.minor)], [])
  }

  predicate AllowedEverywhere(r: Record, tiers: seq<TierData>) {
    forall k :: 0 <= k < |tiers| ==> Allowed(r.rules, RulesOf(tiers[k]))
  }

  /** An export, in the form this program writes, with a field for every tier. */
  predicate TravelsEverywhere(p: seq<byte>, tiers: seq<TierData>) {
    && |p| >= 50 && p[0] == 0
    && ParseRecords(p[50..]).Ok?
    && PrintRecords(ParseRecords(p[50..]).value) == Ok(p[50..])
    && exists i :: 0 <= i < |ParseRecords(p[50..]).value| && AllowedEverywhere(ParseRecords(p[50..]).value[i], tiers)
  }

  ghost function OwnForms(tiers: seq<TierData>): iset<seq<byte>> {
    iset p: seq<byte> | TravelsEverywhere(p, tiers)
  }

  lemma {:induction false} KeepPrints(rs: seq<Record>, rules: Transport.Rules)
    requires PrintRecords(rs).Ok?
    ensures PrintRecords(Keep(rs, rules)).Ok?
  {
    hide PrintRecord, Allowed;
    if rs != [] {
      KeepPrints(rs[1..], rules);
      if Allowed(rs[0].rules, rules) {
        PrintRecordsCons(rs[0], Keep(rs[1..], rules));
      } else {
        assert Keep(rs, rules) == Keep(rs[1..], rules);
      }
    }
  }

  lemma {:induction false} KeepHas(rs: seq<Record>, rules: Transport.Rules, i: nat)
    requires i < |rs| && Allowed(rs[i].rules, rules)
    ensures rs[i] in Keep(rs, rules)
  {
    hide Allowed;
    if i > 0 {
      KeepHas(rs[1..], rules, i - 1);
    }
  }

  lemma PrintedIsNotEmpty(rs: seq<Record>)
    requires rs != [] && PrintRecords(rs).Ok?
    ensures PrintRecords(rs).value != []
  {
    hide PrintRecord;
    RecordIsNotEmpty(rs[0]);
  }

  /** Stripping such an export for one of the tiers gives such an export again. */
  lemma StripTravels(p: seq<byte>, tiers: seq<TierData>, k: nat)
    requires TravelsEverywhere(p, tiers) && k < |tiers|
    ensures var sent := StripToTransportable(p, RulesOf(tiers[k]));
      sent.Ok? && sent.value != [] && TravelsEverywhere(sent.value, tiers)
  {
    hide PrintRecords, ParseRecords, Keep, Allowed;
    var rs, rules := ParseRecords(p[50..]).value, RulesOf(tiers[k]);
    var kept := Keep(rs, rules);
    var i :| 0 <= i < |rs| && AllowedEverywhere(rs[i], tiers);
    KeepPrints(rs, rules);
    KeepHas(rs, rules, i);
    var j :| 0 <= j < |kept| && kept[j] == rs[i];
    PrintedIsNotEmpty(kept);
    ParsedNoWrap(p[50..]);
    KeepTwice(rs, rules);
    RecordsRoundTrip(kept);
    var fields := PrintRecords(kept).value;
    var c := p[..50] + fields;
    assert c[50..] == fields && c[0] == p[0];
    assert AllowedEverywhere(kept[j], tiers);
  }

  lemma OwnIsReady(tiers: seq<TierData>, k: nat, id: Id)
    requires k < |tiers| && tiers[k].extras != [] && tiers[k].extras[0] == 0
    requires var p := CacheGet(tiers[k].data, id); p == [] || TravelsEverywhere(p, tiers)
    ensures Ready(tiers[k], id, Hash(id), OwnForms(tiers))
  {
    hide CacheGet, Hash, TravelsEverywhere, StripToTransportable;
    forall p | p in OwnForms(tiers)
      ensures Sends(p, id, Hash(id), tiers[k], OwnForms(tiers))
    {
      StripTravels(p, tiers, k);
      TravellersAreLong(p, tiers);
    }
  }

  lemma TravellersAreLong(p: seq<byte>, tiers: seq<TierData>)
    requires TravelsEverywhere(p, tiers)
    ensures |p| >= 50 && p[0] == 0
  {
  }
}
