/**
 * The model helpers of backend/users/models.py: the user-type properties of
 * UserProfile, slug generation in StudentPortfolio.save and the invoice
 * number of a Payment.  Database rows are abstracted: the slugs already in
 * use are a set, the completed commission payments a sequence.
 */
module Models {
  import opened Text
  import opened Wrappers

  /**
   * The text and file fields of a UserProfile that the views inspect; a file
   * field is its stored name, and an empty or NULL field is "".
   */
  datatype ProfileInfo = ProfileInfo(
    firstName: string, lastName: string, email: string, contact: string,
    address: string, pinCode: string, extracurricular: string,
    githubLink: string, facebookLink: string, instagramLink: string,
    otherSocialLink: string, profilePhoto: string, resume: string)

  /** The counters of a UserProfile that the views update in place. */
  class UserProfile {
    var userType: string
    var templateChangeCount: int
    var maxTemplateChanges: int
    var portfoliosRemaining: int
    var info: ProfileInfo

    /** A new profile with the model's defaults: 0 changes used, 50 allowed, 10 portfolio slots. */
    constructor (userType: string, info: ProfileInfo)
      ensures this.userType == userType && this.info == info
      ensures templateChangeCount == 0 && maxTemplateChanges == 50 && portfoliosRemaining == 10
    {
      this.userType := userType;
      this.info := info;
      templateChangeCount := 0;
      maxTemplateChanges := 50;
      portfoliosRemaining := 10;
    }

    function IsAgent(): (r: bool)
      reads this
      ensures r <==> userType == "agent"
    {
      userType == "agent"
    }

    function IsStudent(): (r: bool)
      reads this
      ensures r <==> userType == "student"
    {
      userType == "student"
    }

    /**
     * `pending_commission`: 0 for a non-agent, otherwise the sum of the
     * positive commissions of the agent's completed student payments.
     */
    function PendingCommission(completedCommissions: seq<int>): (r: int)
      reads this
      ensures !IsAgent() ==> r == 0
      ensures r >= 0
      ensures IsAgent() ==> r == PositiveSum(completedCommissions)
    {
      if !IsAgent() then 0 else PositiveSum(completedCommissions)
    }
  }

  /** A profile is never both an agent and a student. */
  lemma AgentStudentExclusive(p: UserProfile)
    ensures !(p.IsAgent() && p.IsStudent())
  {
  }

  /** `aggregate(Sum('agent_commission'))` over rows with `agent_commission__gt=0`, `or 0`. */
  function PositiveSum(xs: seq<int>): (r: int)
    ensures r >= 0
    ensures (forall i :: 0 <= i < |xs| ==> xs[i] <= 0) ==> r == 0
  {
    if xs == [] then 0 else (if xs[0] > 0 then xs[0] else 0) + PositiveSum(xs[1..])
  }

  // ------------------------------------------------------------ slugs

  /**
   * The text passed to `slugify` by `save()`: username, first and last name
   * joined by '-', with "user" and "portfolio" standing in for empty names.
   */
  function SlugSource(username: string, firstName: string, lastName: string): (r: string)
    ensures |r| > |username| + 1
    ensures firstName == [] ==> StartsWith(r[|username| + 1..], "user-")
    ensures lastName == [] ==> EndsWith(r, "-portfolio")
    ensures firstName != [] && lastName != [] ==> r == username + "-" + firstName + "-" + lastName
  {
    var first := if firstName != [] then firstName else "user";
    var last := if lastName != [] then lastName else "portfolio";
    assert (username + "-" + first + "-" + last)[|username| + 1..] == first + "-" + last;
    username + "-" + first + "-" + last
  }

  /** The k-th candidate probed: the base itself, then base-1, base-2, … */
  function Candidate(base: string, k: nat): (r: string)
    ensures k > 0 ==> |r| > |base|
  {
    if k == 0 then base else base + "-" + NatStr(k)
  }

  /** Distinct probes give distinct candidates, so the probing loop always ends. */
  lemma CandidateInjective(base: string, j: nat, k: nat)
    requires j != k
    ensures Candidate(base, j) != Candidate(base, k)
  {
    if j > 0 && k > 0 {
      var a := Candidate(base, j);
      var b := Candidate(base, k);
      if a == b {
        assert a[|base| + 1..] == NatStr(j);
        assert b[|base| + 1..] == NatStr(k);
        NatStrInjective(j, k);
      }
    }
  }

  lemma SubsetCard<T>(a: set<T>, b: set<T>)
    requires a <= b
    ensures |a| <= |b|
  {
    if a != {} {
      var x :| x in a;
      SubsetCard(a - {x}, b - {x});
    }
  }

  /**
   * The uniqueness loop of `save()`: probe base, base-1, base-2, … and stop
   * at the first one that is not taken.
   */
  method ProbeSlug(base: string, taken: set<string>) returns (slug: string, probes: nat)
    ensures slug == Candidate(base, probes) && slug !in taken
    ensures forall j :: 0 <= j < probes ==> Candidate(base, j) in taken
    ensures probes <= |taken|
  {
    slug := base;
    probes := 0;
    ghost var tried: set<string> := {};
    while slug in taken
      invariant slug == Candidate(base, probes)
      invariant tried <= taken && |tried| == probes
      invariant forall j :: 0 <= j < probes ==> Candidate(base, j) in tried
      invariant forall s :: s in tried ==> exists j :: 0 <= j < probes && s == Candidate(base, j)
      decreases |taken| - |tried|
    {
      SubsetCard(tried, taken);
      if slug in tried {
        var j :| 0 <= j < probes && slug == Candidate(base, j);
        CandidateInjective(base, j, probes);
      }
      SubsetCard(tried + {slug}, taken);
      tried := tried + {slug};
      probes := probes + 1;
      slug := Candidate(base, probes);
    }
    SubsetCard(tried, taken);
  }

  class StudentPortfolio {
    var slug: string
    var isPaid: bool
    var template: Option<nat>
    var status: string

    /** `StudentPortfolio.objects.create(...)` with no template chosen yet. */
    constructor (slug: string, isPaid: bool, status: string)
      ensures this.slug == slug && this.isPaid == isPaid && this.status == status && template == None
    {
      this.slug := slug;
      this.isPaid := isPaid;
      this.status := status;
      template := None;
    }

    /**
     * `save()`: an existing slug is kept; an empty one becomes the first free
     * candidate built from `slugify` of the username and names.
     */
    method Save(username: string, profile: ProfileInfo, taken: set<string>, slugify: string -> string)
      modifies this`slug
      ensures old(slug) != [] ==> slug == old(slug)
      ensures old(slug) == [] ==> slug !in taken
      ensures old(slug) == [] ==>
        exists k: nat :: slug == Candidate(slugify(SlugSource(username, profile.firstName, profile.lastName)), k) &&
          forall j :: 0 <= j < k ==>
            Candidate(slugify(SlugSource(username, profile.firstName, profile.lastName)), j) in taken
    {
      if slug == [] {
        var base := slugify(SlugSource(username, profile.firstName, profile.lastName));
        var s, k := ProbeSlug(base, taken);
        slug := s;
      }
    }
  }

  // ------------------------------------------------------------ invoices

  /** `Payment.invoice_number`: `f"INV-{year}-{id:04d}"`. */
  function InvoiceNumber(year: nat, id: nat): (r: string)
    ensures StartsWith(r, "INV-")
    ensures |r| >= 4 + |NatStr(year)| + 1 + 4
  {
    "INV-" + NatStr(year) + "-" + ZeroPad(id, 4)
  }

  /** An invoice number splits on '-' into "INV", the year and the id padded to at least four digits. */
  lemma InvoiceNumberDecodes(year: nat, id: nat)
    ensures SplitOn(InvoiceNumber(year, id), "-") == ["INV", NatStr(year), ZeroPad(id, 4)]
    ensures ParseNat(NatStr(year)) == year && ParseNat(ZeroPad(id, 4)) == id
    ensures |ZeroPad(id, 4)| >= 4
  {
    var parts := ["INV", NatStr(year), ZeroPad(id, 4)];
    InvoicePartsFree(year, id);
    InvoicePartsJoin(year, id);
    SplitJoin(parts, '-');
    ParseNatStr(year);
    ZeroPadValue(id, 4);
  }

  lemma InvoicePartsFree(year: nat, id: nat)
    ensures var parts := ["INV", NatStr(year), ZeroPad(id, 4)];
      forall k :: 0 <= k < |parts| ==> Free(parts[k], '-')
  {
    var parts := ["INV", NatStr(year), ZeroPad(id, 4)];
    forall k | 0 <= k < |parts| ensures Free(parts[k], '-') {
      if k == 1 { assert forall i :: 0 <= i < |parts[1]| ==> IsDigit(parts[1][i]); }
      if k == 2 { assert forall i :: 0 <= i < |parts[2]| ==> IsDigit(parts[2][i]); }
    }
  }

  lemma InvoicePartsJoin(year: nat, id: nat)
    ensures Join(["INV", NatStr(year), ZeroPad(id, 4)], "-") == InvoiceNumber(year, id)
  {
    var parts := ["INV", NatStr(year), ZeroPad(id, 4)];
    assert parts[1..][1..] == [ZeroPad(id, 4)];
    assert Join(parts[1..], "-") == NatStr(year) + "-" + ZeroPad(id, 4);
    assert Join(parts, "-") == "INV" + "-" + (NatStr(year) + "-" + ZeroPad(id, 4));
  }

  /** Distinct payment ids in the same year never share an invoice number. */
  lemma InvoiceNumberInjective(year: nat, id1: nat, id2: nat)
    requires InvoiceNumber(year, id1) == InvoiceNumber(year, id2)
    ensures id1 == id2
  {
    InvoiceNumberDecodes(year, id1);
    InvoiceNumberDecodes(year, id2);
  }
}
