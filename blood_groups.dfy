/**
 * The eight ABO/Rh blood groups and the donor compatibility table `COMPATIBLE_DONORS`:
 * for each recipient group, the donor groups that recipient may receive red cells from.
 */
module BloodGroups {

  datatype BloodGroup =
    | APositive | ANegative
    | BPositive | BNegative
    | ABPositive | ABNegative
    | OPositive | ONegative

  /** Every blood group, in declaration order (`Object.values(BloodGroup)`). */
  const AllGroups: seq<BloodGroup> :=
    [APositive, ANegative, BPositive, BNegative, ABPositive, ABNegative, OPositive, ONegative]

  /** The compatibility table, one list per recipient group, as the mock back end writes it. */
  function CompatibleDonors(recipient: BloodGroup): (donors: seq<BloodGroup>)
    ensures |donors| > 0
    ensures ONegative in donors
    ensures recipient in donors
  {
    match recipient
    case APositive => [APositive, ANegative, OPositive, ONegative]
    case ANegative => [ANegative, ONegative]
    case BPositive => [BPositive, BNegative, OPositive, ONegative]
    case BNegative => [BNegative, ONegative]
    case ABPositive => AllGroups
    case ABNegative => [ABNegative, ANegative, BNegative, ONegative]
    case OPositive => [OPositive, ONegative]
    case ONegative => [ONegative]
  }

  // An independent description of the same relation, from the antigens each group carries.

  /** Red cells of the group carry the A antigen. */
  predicate HasA(g: BloodGroup) { g in {APositive, ANegative, ABPositive, ABNegative} }

  /** Red cells of the group carry the B antigen. */
  predicate HasB(g: BloodGroup) { g in {BPositive, BNegative, ABPositive, ABNegative} }

  /** Red cells of the group carry the RhD antigen. */
  predicate HasRhD(g: BloodGroup) { g in {APositive, BPositive, ABPositive, OPositive} }

  /** A donor is compatible when it carries no antigen the recipient lacks. */
  predicate AntigenCompatible(donor: BloodGroup, recipient: BloodGroup)
  {
    (HasA(donor) ==> HasA(recipient)) &&
    (HasB(donor) ==> HasB(recipient)) &&
    (HasRhD(donor) ==> HasRhD(recipient))
  }

  /** The table lists exactly the antigen-compatible donors of every recipient. */
  lemma TableMatchesAntigenRule(recipient: BloodGroup, donor: BloodGroup)
    ensures donor in CompatibleDonors(recipient) <==> AntigenCompatible(donor, recipient)
  {
  }

  /** O− can give to every recipient (universal donor). */
  lemma ONegativeGivesToAll(recipient: BloodGroup)
    ensures ONegative in CompatibleDonors(recipient)
  {
  }

  /** AB+ can receive from every group (universal recipient). */
  lemma ABPositiveReceivesFromAll(donor: BloodGroup)
    ensures donor in CompatibleDonors(ABPositive)
  {
  }

  /** O− receives only from O−. */
  lemma ONegativeReceivesOnlyONegative(donor: BloodGroup)
    ensures donor in CompatibleDonors(ONegative) <==> donor == ONegative
  {
  }

  /** Every group can receive from itself. */
  lemma SelfCompatible(g: BloodGroup)
    ensures g in CompatibleDonors(g)
  {
  }

  /** No list names a donor group twice. */
  lemma ListsAreDuplicateFree(recipient: BloodGroup)
    ensures forall i, j :: 0 <= i < j < |CompatibleDonors(recipient)| ==>
      CompatibleDonors(recipient)[i] != CompatibleDonors(recipient)[j]
  {
  }

  /** The relation is transitive: a donor's donors may also give to the recipient. */
  lemma CompatibilityTransitive(a: BloodGroup, b: BloodGroup, c: BloodGroup)
    requires a in CompatibleDonors(b) && b in CompatibleDonors(c)
    ensures a in CompatibleDonors(c)
  {
  }
}
