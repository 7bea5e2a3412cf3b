/** Party-level features of a case: whether some party represents itself
    (`has_pro_se_party`) and how many parties have a given role
    (`count_party_type`). */
module Parties {
  import opened Wrappers
  import opened Text

  datatype Counsel = Counsel(name: Option<string>)

  datatype Party = Party(name: Option<string>, partyType: Option<string>, counsel: seq<Counsel>)

  /** The party has a name, and one of its counsel carries the same name up to
      case: the party appears pro se. */
  predicate RepresentsSelf(p: Party) {
    && p.name.Some?
    && exists j :: 0 <= j < |p.counsel| && NamedAs(p.counsel[j], p.name.value)
  }

  predicate NamedAs(c: Counsel, name: string) {
    c.name.Some? && Lower(c.name.value) == Lower(name)
  }

  /** The inner loop: scan the counsel list for one named like the party. */
  function CounselMatch(cs: seq<Counsel>, name: string): (r: bool)
    ensures r <==> exists j :: 0 <= j < |cs| && NamedAs(cs[j], name)
  {
    if |cs| == 0 then false
    else NamedAs(cs[0], name) || CounselMatch(cs[1..], name)
  }

  /** The outer loop with early exit: true as soon as one party qualifies. */
  function HasProSeParty(parties: seq<Party>): (r: bool)
    ensures r <==> exists i :: 0 <= i < |parties| && RepresentsSelf(parties[i])
  {
    if |parties| == 0 then false
    else
      var p := parties[0];
      (p.name.Some? && CounselMatch(p.counsel, p.name.value)) || HasProSeParty(parties[1..])
  }

  function PartyTypes(parties: seq<Party>): (r: seq<Option<string>>)
    ensures |r| == |parties|
  {
    seq(|parties|, i requires 0 <= i < |parties| => parties[i].partyType)
  }

  /** The number of parties whose role equals `t`: the multiplicity of `t`
      among all the parties' roles. */
  function CountPartyType(parties: seq<Party>, t: string): (r: nat)
    ensures r <= |parties|
    ensures r == multiset(PartyTypes(parties))[Some(t)]
  {
    if |parties| == 0 then 0
    else
      assert PartyTypes(parties) == [parties[0].partyType] + PartyTypes(parties[1..]);
      (if parties[0].partyType == Some(t) then 1 else 0) + CountPartyType(parties[1..], t)
  }

  /** Two different roles are never both counted for one party. */
  lemma {:induction false} CountTwoTypesBound(parties: seq<Party>, a: string, b: string)
    requires a != b
    ensures CountPartyType(parties, a) + CountPartyType(parties, b) <= |parties|
  {
    if |parties| > 0 {
      CountTwoTypesBound(parties[1..], a, b);
    }
  }
}
