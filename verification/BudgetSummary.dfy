/** Splits a household's income and expenses across its budgeters.

    Floating-point proportions are exact reals here. Lower-casing is a parameter: nothing
    below depends on which letters it folds. */
module BudgetSummary {
  import opened Text
  import opened Numbers
  import opened Salary

  type Lower = string -> string

  datatype ExpenseCategory = ExpenseCategory(name: string, projectedAmount: int, groupName: string)

  datatype ComputedSalary = ComputedSalary(configured: Configured, salaryMonth: int, fragments: seq<SalaryFragment>) {
    function Name(): string {
      configured.name
    }
  }

  datatype ComputedExpenses = ComputedExpenses(
    computedSalary: ComputedSalary,
    proportion: real,
    commonExpenses: int,
    individualExpenses: int,
    leftOver: int)

  datatype TotalComputedExpenses = TotalComputedExpenses(
    salaryMonth: int,
    commonExpenses: int,
    individualExpenses: int,
    leftOver: int)

  /** Whether a category is individual to the budgeter called `name`. */
  predicate BelongsTo(category: ExpenseCategory, name: string, lower: Lower) {
    Trim(name) != "" && Contains(lower(category.name), lower(name))
  }

  predicate MatchesAny(category: ExpenseCategory, budgeters: seq<ComputedSalary>, lower: Lower) {
    exists b <- budgeters :: BelongsTo(category, b.Name(), lower)
  }

  function TotalSalary(budgeters: seq<ComputedSalary>): int {
    if budgeters == [] then 0
    else TotalSalary(budgeters[..|budgeters| - 1]) + budgeters[|budgeters| - 1].salaryMonth
  }

  function SumAmounts(categories: seq<ExpenseCategory>): int {
    if categories == [] then 0
    else SumAmounts(categories[..|categories| - 1]) + categories[|categories| - 1].projectedAmount
  }

  /** The categories that belong to some budgeter, in order. */
  function Individual(categories: seq<ExpenseCategory>, budgeters: seq<ComputedSalary>, lower: Lower): (found: seq<ExpenseCategory>)
    ensures forall c <- found :: c in categories && MatchesAny(c, budgeters, lower)
  {
    if categories == [] then []
    else
      var last := categories[|categories| - 1];
      Individual(categories[..|categories| - 1], budgeters, lower) + (if MatchesAny(last, budgeters, lower) then [last] else [])
  }

  /** The categories that belong to the budgeter called `name`, in order. */
  function OwnedBy(categories: seq<ExpenseCategory>, name: string, lower: Lower): (found: seq<ExpenseCategory>)
    ensures forall c <- found :: c in categories && BelongsTo(c, name, lower)
  {
    if categories == [] then []
    else
      var last := categories[|categories| - 1];
      OwnedBy(categories[..|categories| - 1], name, lower) + (if BelongsTo(last, name, lower) then [last] else [])
  }

  /** Sorts categories into individual and common ones and sums both. Every cent of every
      category is in exactly one of the two sums. */
  method ComputeTotalExpenses(salaryMonth: int, categories: seq<ExpenseCategory>, budgeters: seq<ComputedSalary>, lower: Lower)
    returns (total: TotalComputedExpenses, individual: seq<ExpenseCategory>)
    ensures individual == Individual(categories, budgeters, lower)
    ensures total.individualExpenses == SumAmounts(individual)
    ensures total.commonExpenses + total.individualExpenses == SumAmounts(categories)
    ensures total.salaryMonth == salaryMonth
    ensures total.leftOver == salaryMonth - SumAmounts(categories)
  {
    hide MatchesAny;
    var commonExpenses, individualExpenses := 0, 0;
    individual := [];
    for i := 0 to |categories|
      invariant individual == Individual(categories[..i], budgeters, lower)
      invariant individualExpenses == SumAmounts(individual)
      invariant commonExpenses + individualExpenses == SumAmounts(categories[..i])
    {
      var category := categories[i];
      assert categories[..i + 1][..i] == categories[..i];
      if MatchesAny(category, budgeters, lower) {
        individualExpenses := individualExpenses + category.projectedAmount;
        assert (individual + [category])[..|individual|] == individual;
        individual := individual + [category];
      } else {
        commonExpenses := commonExpenses + category.projectedAmount;
      }
    }
    assert categories[..|categories|] == categories;
    total := TotalComputedExpenses(salaryMonth, commonExpenses, individualExpenses, salaryMonth - commonExpenses - individualExpenses);
  }

  function Proportion(budgeter: ComputedSalary, total: TotalComputedExpenses): real {
    if total.salaryMonth == 0 then 0.0 else budgeter.salaryMonth as real / total.salaryMonth as real
  }

  function ComputeExpenses(budgeter: ComputedSalary, total: TotalComputedExpenses, individual: seq<ExpenseCategory>, lower: Lower): ComputedExpenses {
    var proportion := Proportion(budgeter, total);
    var commonExpenses := Round(proportion * total.commonExpenses as real);
    var individualExpenses := SumAmounts(OwnedBy(individual, budgeter.Name(), lower));
    ComputedExpenses(budgeter, proportion, commonExpenses, individualExpenses,
                     budgeter.salaryMonth - commonExpenses - individualExpenses)
  }

  function ComputeAll(budgeters: seq<ComputedSalary>, total: TotalComputedExpenses, individual: seq<ExpenseCategory>, lower: Lower)
    : (shares: seq<ComputedExpenses>)
    ensures |shares| == |budgeters|
    ensures forall i :: 0 <= i < |shares| ==> shares[i] == ComputeExpenses(budgeters[i], total, individual, lower)
  {
    if budgeters == [] then []
    else
      hide ComputeExpenses;
      ComputeAll(budgeters[..|budgeters| - 1], total, individual, lower)
        + [ComputeExpenses(budgeters[|budgeters| - 1], total, individual, lower)]
  }

  method Build(budgeters: seq<ComputedSalary>, categories: seq<ExpenseCategory>, lower: Lower)
    returns (shares: seq<ComputedExpenses>, total: TotalComputedExpenses)
    ensures total.salaryMonth == TotalSalary(budgeters)
    ensures total.commonExpenses + total.individualExpenses == SumAmounts(categories)
    ensures total.individualExpenses == SumAmounts(Individual(categories, budgeters, lower))
    ensures total.leftOver == TotalSalary(budgeters) - SumAmounts(categories)
    ensures shares == ComputeAll(budgeters, total, Individual(categories, budgeters, lower), lower)
    ensures SumLeftOver(shares) == total.leftOver + (total.commonExpenses - SumCommon(shares))
                                 - Overcount(Individual(categories, budgeters, lower), budgeters, lower)
    ensures |shares| == |budgeters| && forall i :: 0 <= i < |shares| ==>
              && shares[i].computedSalary == budgeters[i]
              && shares[i].individualExpenses == SumAmounts(OwnedBy(categories, budgeters[i].Name(), lower))
              && shares[i].leftOver == budgeters[i].salaryMonth - shares[i].commonExpenses - shares[i].individualExpenses
  {
    hide ComputeAll, Individual, Overcount, ComputeExpenses, SumAmounts, OwnedBy;
    var individual;
    total, individual := ComputeTotalExpenses(TotalSalary(budgeters), categories, budgeters, lower);
    shares := ComputeAll(budgeters, total, individual, lower);
    forall i | 0 <= i < |budgeters|
      ensures shares[i].computedSalary == budgeters[i]
      ensures shares[i].individualExpenses == SumAmounts(OwnedBy(categories, budgeters[i].Name(), lower))
      ensures shares[i].leftOver == budgeters[i].salaryMonth - shares[i].commonExpenses - shares[i].individualExpenses
    {
      ShareFields(budgeters[i], total, categories, budgeters, lower);
    }
    LeftOverLaw(budgeters, total, individual, lower);
  }

  lemma ShareFields(budgeter: ComputedSalary, total: TotalComputedExpenses, categories: seq<ExpenseCategory>,
                    budgeters: seq<ComputedSalary>, lower: Lower)
    requires budgeter in budgeters
    ensures var share := ComputeExpenses(budgeter, total, Individual(categories, budgeters, lower), lower);
            && share.computedSalary == budgeter
            && share.individualExpenses == SumAmounts(OwnedBy(categories, budgeter.Name(), lower))
            && share.leftOver == budgeter.salaryMonth - share.commonExpenses - share.individualExpenses
  {
    hide SumAmounts, OwnedBy, Individual, Round, Proportion;
    RefilterIsFilter(categories, budgeters, budgeter.Name(), lower);
  }

  /** A share of the common expenses is the budgeter's part of the total salary, to half a cent; of no
      total salary it is nothing. */
  lemma ShareIsProportional(budgeter: ComputedSalary, total: TotalComputedExpenses, individual: seq<ExpenseCategory>, lower: Lower)
    ensures var share := ComputeExpenses(budgeter, total, individual, lower);
            && (total.salaryMonth != 0 ==> share.proportion * total.salaryMonth as real == budgeter.salaryMonth as real)
            && (total.salaryMonth == 0 ==> share.proportion == 0.0)
            && -0.5 <= share.commonExpenses as real - share.proportion * total.commonExpenses as real <= 0.5
  {
    hide SumAmounts, OwnedBy, Round;
  }

  /** The individual categories are exactly the matching ones, as often as they are listed. */
  lemma {:induction false} IndividualExactly(categories: seq<ExpenseCategory>, budgeters: seq<ComputedSalary>, lower: Lower, c: ExpenseCategory)
    ensures multiset(Individual(categories, budgeters, lower))[c]
         == if MatchesAny(c, budgeters, lower) then multiset(categories)[c] else 0
  {
    hide MatchesAny;
    if categories != [] {
      IndividualExactly(categories[..|categories| - 1], budgeters, lower, c);
      assert categories == categories[..|categories| - 1] + [categories[|categories| - 1]];
    }
  }

  lemma {:induction false} OwnedExactly(categories: seq<ExpenseCategory>, name: string, lower: Lower, c: ExpenseCategory)
    ensures multiset(OwnedBy(categories, name, lower))[c] == if BelongsTo(c, name, lower) then multiset(categories)[c] else 0
  {
    hide BelongsTo;
    if categories != [] {
      OwnedExactly(categories[..|categories| - 1], name, lower, c);
      assert categories == categories[..|categories| - 1] + [categories[|categories| - 1]];
    }
  }

  // ----- conservation

  function SumProportions(shares: seq<ComputedExpenses>): real {
    if shares == [] then 0.0 else SumProportions(shares[..|shares| - 1]) + shares[|shares| - 1].proportion
  }

  function SumCommon(shares: seq<ComputedExpenses>): int {
    if shares == [] then 0 else SumCommon(shares[..|shares| - 1]) + shares[|shares| - 1].commonExpenses
  }

  function SumIndividual(shares: seq<ComputedExpenses>): int {
    if shares == [] then 0 else SumIndividual(shares[..|shares| - 1]) + shares[|shares| - 1].individualExpenses
  }

  function SumLeftOver(shares: seq<ComputedExpenses>): int {
    if shares == [] then 0 else SumLeftOver(shares[..|shares| - 1]) + shares[|shares| - 1].leftOver
  }

  /** How many budgeters a category belongs to. */
  function Owners(category: ExpenseCategory, budgeters: seq<ComputedSalary>, lower: Lower): (n: nat)
    ensures n > 0 <==> MatchesAny(category, budgeters, lower)
  {
    if budgeters == [] then 0
    else
      var last := budgeters[|budgeters| - 1];
      assert budgeters == budgeters[..|budgeters| - 1] + [last];
      Owners(category, budgeters[..|budgeters| - 1], lower) + (if BelongsTo(category, last.Name(), lower) then 1 else 0)
  }

  /** What the budgeters are charged together for individual categories, beyond their amounts:
      a category with two owners is charged twice. */
  function Overcount(individual: seq<ExpenseCategory>, budgeters: seq<ComputedSalary>, lower: Lower): int {
    if individual == [] then 0
    else
      var last := individual[|individual| - 1];
      Overcount(individual[..|individual| - 1], budgeters, lower) + (Owners(last, budgeters, lower) - 1) * last.projectedAmount
  }

  /** The part of the total salary that `salary` makes up. */
  function Part(salary: int, total: TotalComputedExpenses): real
    requires total.salaryMonth != 0
  {
    salary as real / total.salaryMonth as real
  }

  /** The exact, unrounded share of the common expenses for `salary`. */
  function ExactShare(salary: int, total: TotalComputedExpenses): real
    requires total.salaryMonth != 0
  {
    Part(salary, total) * total.commonExpenses as real
  }

  /** The budgeters' proportions add up to the part of the total salary they earn, and their
      rounded common shares miss the exact ones by at most half a cent each. */
  lemma {:induction false} SharesTrackSalaries(budgeters: seq<ComputedSalary>, total: TotalComputedExpenses, individual: seq<ExpenseCategory>, lower: Lower)
    requires total.salaryMonth != 0
    ensures var shares := ComputeAll(budgeters, total, individual, lower);
            var exact := ExactShare(TotalSalary(budgeters), total);
            && SumProportions(shares) == Part(TotalSalary(budgeters), total)
            && exact - |budgeters| as real / 2.0 <= SumCommon(shares) as real <= exact + |budgeters| as real / 2.0
  {
    hide ComputeAll, ComputeExpenses, Part, ExactShare, SumProportions, SumCommon;
    if budgeters == [] {
      NoShares(total, individual, lower);
    } else {
      var front, last := budgeters[..|budgeters| - 1], budgeters[|budgeters| - 1];
      SharesTrackSalaries(front, total, individual, lower);
      SumsPush(ComputeAll(front, total, individual, lower), ComputeExpenses(last, total, individual, lower));
      OneShare(last, total, individual, lower);
      SharesAdd(TotalSalary(front), last.salaryMonth, total);
      ComputeAllPush(budgeters, total, individual, lower);
    }
  }

  lemma SumsPush(shares: seq<ComputedExpenses>, share: ComputedExpenses)
    ensures SumProportions(shares + [share]) == SumProportions(shares) + share.proportion
    ensures SumCommon(shares + [share]) == SumCommon(shares) + share.commonExpenses
  {
    assert (shares + [share])[..|shares|] == shares;
  }

  lemma ComputeAllPush(budgeters: seq<ComputedSalary>, total: TotalComputedExpenses, individual: seq<ExpenseCategory>, lower: Lower)
    requires budgeters != []
    ensures ComputeAll(budgeters, total, individual, lower)
         == ComputeAll(budgeters[..|budgeters| - 1], total, individual, lower)
          + [ComputeExpenses(budgeters[|budgeters| - 1], total, individual, lower)]
  {
  }

  lemma NoShares(total: TotalComputedExpenses, individual: seq<ExpenseCategory>, lower: Lower)
    requires total.salaryMonth != 0
    ensures Part(0, total) == 0.0 && ExactShare(0, total) == 0.0
    ensures ComputeAll([], total, individual, lower) == [] && SumProportions([]) == 0.0 && SumCommon([]) == 0
  {
  }

  lemma SharesAdd(a: int, b: int, total: TotalComputedExpenses)
    requires total.salaryMonth != 0
    ensures Part(a + b, total) == Part(a, total) + Part(b, total)
    ensures ExactShare(a + b, total) == ExactShare(a, total) + ExactShare(b, total)
  {
    AddFractions(a as real, b as real, total.salaryMonth as real, total.commonExpenses as real);
  }

  lemma AddFractions(a: real, b: real, d: real, factor: real)
    requires d != 0.0
    ensures (a + b) / d == a / d + b / d
    ensures (a + b) / d * factor == a / d * factor + b / d * factor
  {
  }

  lemma OneShare(budgeter: ComputedSalary, total: TotalComputedExpenses, individual: seq<ExpenseCategory>, lower: Lower)
    requires total.salaryMonth != 0
    ensures var share := ComputeExpenses(budgeter, total, individual, lower);
            var exact := ExactShare(budgeter.salaryMonth, total);
            && share.proportion == Part(budgeter.salaryMonth, total)
            && exact - 0.5 <= share.commonExpenses as real <= exact + 0.5
  {
    hide SumAmounts, OwnedBy, Round;
  }

  /** With a nonzero total salary the proportions sum to 1 and the common shares of n
      budgeters sum to within n / 2 cents of the household's common expenses. */
  lemma CommonSharesAddUp(budgeters: seq<ComputedSalary>, total: TotalComputedExpenses, individual: seq<ExpenseCategory>, lower: Lower)
    requires total.salaryMonth == TotalSalary(budgeters) != 0
    ensures var shares := ComputeAll(budgeters, total, individual, lower);
            && SumProportions(shares) == 1.0
            && -|budgeters| <= 2 * (SumCommon(shares) - total.commonExpenses) <= |budgeters|
  {
    hide ComputeAll, SumProportions, SumCommon, TotalSalary;
    SharesTrackSalaries(budgeters, total, individual, lower);
    WholePart(total);
  }

  lemma WholePart(total: TotalComputedExpenses)
    requires total.salaryMonth != 0
    ensures Part(total.salaryMonth, total) == 1.0 && ExactShare(total.salaryMonth, total) == total.commonExpenses as real
  {
    SelfQuotient(total.salaryMonth as real);
  }

  lemma SelfQuotient(x: real)
    requires x != 0.0
    ensures x / x == 1.0
  {
    var q := x / x;
    assert q * x == x;
    assert (q - 1.0) * x == 0.0;
  }

  /** With a zero total salary nobody is charged any common expense. */
  lemma {:induction false} NoSalaryNoShares(budgeters: seq<ComputedSalary>, total: TotalComputedExpenses, individual: seq<ExpenseCategory>, lower: Lower)
    requires total.salaryMonth == 0
    ensures var shares := ComputeAll(budgeters, total, individual, lower);
            && SumProportions(shares) == 0.0
            && SumCommon(shares) == 0
            && forall i :: 0 <= i < |shares| ==> shares[i].commonExpenses == 0
  {
    hide SumAmounts, OwnedBy;
    if budgeters != [] {
      var shares := ComputeAll(budgeters, total, individual, lower);
      NoSalaryNoShares(budgeters[..|budgeters| - 1], total, individual, lower);
      assert shares[..|shares| - 1] == ComputeAll(budgeters[..|budgeters| - 1], total, individual, lower);
      RoundInteger(0);
    }
  }

  /** Charging each budgeter is charging each category once per owner. */
  lemma {:induction false} IndividualCharges(budgeters: seq<ComputedSalary>, total: TotalComputedExpenses, individual: seq<ExpenseCategory>, lower: Lower)
    ensures SumIndividual(ComputeAll(budgeters, total, individual, lower)) == SumAmounts(individual) + Overcount(individual, budgeters, lower)
  {
    hide Round, Proportion;
    if budgeters == [] {
      NobodyCharged(individual, lower);
    } else {
      var front, last := budgeters[..|budgeters| - 1], budgeters[|budgeters| - 1];
      IndividualCharges(front, total, individual, lower);
      var shares := ComputeAll(budgeters, total, individual, lower);
      assert shares[..|shares| - 1] == ComputeAll(front, total, individual, lower);
      OneMoreOwner(individual, budgeters, lower);
    }
  }

  lemma {:induction false} NobodyCharged(individual: seq<ExpenseCategory>, lower: Lower)
    ensures SumAmounts(individual) + Overcount(individual, [], lower) == 0
  {
    if individual != [] {
      NobodyCharged(individual[..|individual| - 1], lower);
    }
  }

  lemma {:induction false} OneMoreOwner(individual: seq<ExpenseCategory>, budgeters: seq<ComputedSalary>, lower: Lower)
    requires budgeters != []
    ensures var last := budgeters[|budgeters| - 1];
            Overcount(individual, budgeters, lower)
              == Overcount(individual, budgeters[..|budgeters| - 1], lower) + SumAmounts(OwnedBy(individual, last.Name(), lower))
  {
    hide BelongsTo, MatchesAny;
    if individual != [] {
      var front, last := individual[..|individual| - 1], individual[|individual| - 1];
      OneMoreOwner(front, budgeters, lower);
      var name := budgeters[|budgeters| - 1].Name();
      assert OwnedBy(front, name, lower) + [] == OwnedBy(front, name, lower);
      SumPush(OwnedBy(front, name, lower), last);
      var n := Owners(last, budgeters[..|budgeters| - 1], lower);
      assert (n + 1 - 1) * last.projectedAmount == (n - 1) * last.projectedAmount + last.projectedAmount;
    }
  }

  lemma SumPush(categories: seq<ExpenseCategory>, category: ExpenseCategory)
    ensures SumAmounts(categories + [category]) == SumAmounts(categories) + category.projectedAmount
  {
    assert (categories + [category])[..|categories|] == categories;
  }

  lemma {:induction false} LeftOverParts(budgeters: seq<ComputedSalary>, total: TotalComputedExpenses, individual: seq<ExpenseCategory>, lower: Lower)
    ensures var shares := ComputeAll(budgeters, total, individual, lower);
            SumLeftOver(shares) == TotalSalary(budgeters) - SumCommon(shares) - SumIndividual(shares)
  {
    hide Round, Proportion, SumAmounts, OwnedBy;
    if budgeters != [] {
      var front := budgeters[..|budgeters| - 1];
      LeftOverParts(front, total, individual, lower);
      var shares := ComputeAll(budgeters, total, individual, lower);
      assert shares[..|shares| - 1] == ComputeAll(front, total, individual, lower);
    }
  }

  /** Where every cent goes, for all inputs: what the budgeters have left is what the household
      has left, corrected by the rounding of common shares and by double ownership. */
  lemma LeftOverLaw(budgeters: seq<ComputedSalary>, total: TotalComputedExpenses, individual: seq<ExpenseCategory>, lower: Lower)
    requires total.leftOver == TotalSalary(budgeters) - total.commonExpenses - total.individualExpenses
    requires total.individualExpenses == SumAmounts(individual)
    ensures var shares := ComputeAll(budgeters, total, individual, lower);
            SumLeftOver(shares) == total.leftOver + (total.commonExpenses - SumCommon(shares)) - Overcount(individual, budgeters, lower)
  {
    LeftOverParts(budgeters, total, individual, lower);
    IndividualCharges(budgeters, total, individual, lower);
  }

  predicate SingleOwners(individual: seq<ExpenseCategory>, budgeters: seq<ComputedSalary>, lower: Lower) {
    forall c <- individual :: Owners(c, budgeters, lower) == 1
  }

  lemma {:induction false} SingleOwnersNoOvercount(individual: seq<ExpenseCategory>, budgeters: seq<ComputedSalary>, lower: Lower)
    requires SingleOwners(individual, budgeters, lower)
    ensures Overcount(individual, budgeters, lower) == 0
  {
    hide Owners;
    if individual != [] {
      assert individual[|individual| - 1] in individual;
      SingleOwnersNoOvercount(individual[..|individual| - 1], budgeters, lower);
    }
  }

  /** If no category has two owners and the total salary is not zero, what n budgeters have
      left sums to within n / 2 cents of what the household has left. */
  lemma {:induction false} LeftOverAddsUp(budgeters: seq<ComputedSalary>, total: TotalComputedExpenses, individual: seq<ExpenseCategory>, lower: Lower)
    requires total.salaryMonth == TotalSalary(budgeters) != 0
    requires total.leftOver == TotalSalary(budgeters) - total.commonExpenses - total.individualExpenses
    requires total.individualExpenses == SumAmounts(individual)
    requires SingleOwners(individual, budgeters, lower)
    ensures -|budgeters| <= 2 * (SumLeftOver(ComputeAll(budgeters, total, individual, lower)) - total.leftOver) <= |budgeters|
  {
    hide ComputeAll, SumLeftOver, SumCommon, TotalSalary;
    LeftOverLaw(budgeters, total, individual, lower);
    CommonSharesAddUp(budgeters, total, individual, lower);
    SingleOwnersNoOvercount(individual, budgeters, lower);
  }

  /** Two names of which one contains the other: their common category is charged to both. */
  lemma DoubleOwnershipExample(total: TotalComputedExpenses)
    ensures var ann := ComputedSalary(Configured("Ann", "", []), 100, []);
            var joann := ComputedSalary(Configured("JoAnn", "", []), 100, []);
            var gym := ExpenseCategory("Gym JoAnn", 30, "");
            && Overcount([gym], [ann, joann], s => s) == 30
            && ComputeExpenses(ann, total, [gym], s => s).individualExpenses == 30
            && ComputeExpenses(joann, total, [gym], s => s).individualExpenses == 30
  {
    var ann := ComputedSalary(Configured("Ann", "", []), 100, []);
    var joann := ComputedSalary(Configured("JoAnn", "", []), 100, []);
    var gym := ExpenseCategory("Gym JoAnn", 30, "");
    hide BelongsTo;
    GymBelongsToBoth(gym);
    assert Owners(gym, [], s => s) == 0;
    assert [ann][..0] == [] && [ann, joann][..1] == [ann];
    assert Owners(gym, [ann], s => s) == 1;
    assert Owners(gym, [ann, joann], s => s) == 2;
    assert [gym][..0] == [];
    assert OwnedBy([gym], "Ann", s => s) == [gym] && OwnedBy([gym], "JoAnn", s => s) == [gym];
  }

  /** Ownership goes by folded names: categories and budgeters whose names fold alike are treated
      alike. */
  lemma FoldedAlike(category: ExpenseCategory, other: ExpenseCategory, name: string, alias: string, lower: Lower)
    requires lower(category.name) == lower(other.name) && lower(name) == lower(alias)
    requires !AllWhitespace(name) && !AllWhitespace(alias)
    ensures BelongsTo(category, name, lower) <==> BelongsTo(other, alias, lower)
  {
    hide AllWhitespace, Trim, Contains;
    BlankExactly(name);
    BlankExactly(alias);
  }

  /** A blank name owns nothing; any other name owns the categories called exactly so, up to
      folding. */
  lemma BlankOwnsNothing(category: ExpenseCategory, name: string, lower: Lower)
    ensures AllWhitespace(name) ==> !BelongsTo(category, name, lower)
    ensures !AllWhitespace(name) && lower(category.name) == lower(name) ==> BelongsTo(category, name, lower)
  {
    hide AllWhitespace, Trim;
    BlankExactly(name);
    assert OccursAt(lower(name), lower(name), 0);
  }

  lemma GymBelongsToBoth(gym: ExpenseCategory)
    requires gym.name == "Gym JoAnn"
    ensures BelongsTo(gym, "Ann", s => s) && BelongsTo(gym, "JoAnn", s => s)
  {
    hide TrimStart, TrimEnd, Trim;
    TrimTrimmed("Ann");
    TrimTrimmed("JoAnn");
    assert "Gym JoAnn" == "Gym Jo" + "Ann" == "Gym " + "JoAnn";
    OccursAtEnd("Gym Jo", "Ann");
    OccursAtEnd("Gym ", "JoAnn");
  }

  lemma OccursAtEnd(before: string, part: string)
    ensures Contains(before + part, part)
  {
    assert (before + part)[|before|..|before| + |part|] == part;
    assert OccursAt(before + part, part, |before|);
  }

  /** Looking for a budgeter's categories among the individual ones finds all of them. */
  lemma {:induction false} RefilterIsFilter(categories: seq<ExpenseCategory>, budgeters: seq<ComputedSalary>, name: string, lower: Lower)
    requires exists b <- budgeters :: b.Name() == name
    ensures OwnedBy(Individual(categories, budgeters, lower), name, lower) == OwnedBy(categories, name, lower)
  {
    hide BelongsTo;
    if categories != [] {
      var front, last := categories[..|categories| - 1], categories[|categories| - 1];
      RefilterIsFilter(front, budgeters, name, lower);
      var found := Individual(front, budgeters, lower);
      assert (found + [last])[..|found|] == found && found + [] == found;
      assert BelongsTo(last, name, lower) ==> MatchesAny(last, budgeters, lower);
    }
  }
}
