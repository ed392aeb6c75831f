/**
 The path helpers of the document storage backfill: a legacy key is
 `documents/{rest}`, a company-scoped key is `documents/{companyId}/{rest}`.
 */
module StoragePaths {
  import opened Prelude

  const ROOT := "documents/"

  function CompanyPrefix(company: string): string {
    ROOT + company + "/"
  }

  predicate IsCompanyScoped(path: string, company: string) {
    CompanyPrefix(company) <= path
  }

  predicate IsDocumentPath(path: string) {
    ROOT <= path
  }

  function CompanyScopedPath(path: string, company: string): Option<string> {
    if IsCompanyScoped(path, company) then None
    else if !IsDocumentPath(path) then None
    else Some(CompanyPrefix(company) + path[|ROOT|..])
  }

  function LegacyPathFor(path: string, company: string): Option<string> {
    if !IsCompanyScoped(path, company) then None
    else Some(ROOT + path[|CompanyPrefix(company)|..])
  }

  predicate SlashFree(company: string) {
    '/' !in company
  }

  /** A scoped key is under the root. */
  lemma ScopedIsDocument(path: string, company: string)
    requires IsCompanyScoped(path, company)
    ensures IsDocumentPath(path)
  {
    assert ROOT == CompanyPrefix(company)[..|ROOT|] == path[..|ROOT|];
  }

  /** Deriving the legacy key undoes the scoped mapping, for every path and company. */
  lemma LegacyUndoesScoped(path: string, company: string)
    requires CompanyScopedPath(path, company).Some?
    ensures var target := CompanyScopedPath(path, company).value;
            IsCompanyScoped(target, company)
            && CompanyScopedPath(target, company) == None
            && LegacyPathFor(target, company) == Some(path)
  {
    var target := CompanyScopedPath(path, company).value;
    assert target[|CompanyPrefix(company)|..] == path[|ROOT|..];
    assert ROOT + path[|ROOT|..] == path;
  }

  /** The scoped key determines both the path and the slash-free company it came from. */
  lemma ScopedPathInjective(path0: string, company0: string, path1: string, company1: string)
    requires SlashFree(company0) && SlashFree(company1)
    requires CompanyScopedPath(path0, company0).Some?
    requires CompanyScopedPath(path0, company0) == CompanyScopedPath(path1, company1)
    ensures path0 == path1 && company0 == company1
  {
    var target := CompanyScopedPath(path0, company0).value;
    LegacyUndoesScoped(path0, company0);
    LegacyUndoesScoped(path1, company1);
    OneCompanyPerPath(target, company0, company1);
  }

  /** No key is scoped for two different slash-free companies. */
  lemma OneCompanyPerPath(path: string, company0: string, company1: string)
    requires SlashFree(company0) && SlashFree(company1)
    requires IsCompanyScoped(path, company0) && IsCompanyScoped(path, company1)
    ensures company0 == company1
  {
    if |company0| < |company1| {
      SlashInside(path, company0, company1);
    } else if |company1| < |company0| {
      SlashInside(path, company1, company0);
    } else {
      assert path[|ROOT|..|ROOT| + |company0|] == company0;
      assert path[|ROOT|..|ROOT| + |company1|] == company1;
    }
  }

  lemma SlashInside(path: string, short: string, long: string)
    requires |short| < |long|
    requires IsCompanyScoped(path, short) && IsCompanyScoped(path, long)
    ensures !SlashFree(long)
  {
    var slash := |ROOT| + |short|;
    assert CompanyPrefix(short)[slash] == '/';
    assert CompanyPrefix(long)[slash] == long[|short|];
    assert path[slash] == '/';
  }

  /**
   The reverse round trip holds exactly when the derived key is not itself
   under that company's prefix.
   */
  lemma ScopedUndoesLegacy(path: string, company: string)
    requires IsCompanyScoped(path, company)
    ensures var legacy := LegacyPathFor(path, company).value;
            CompanyScopedPath(legacy, company) == Some(path) <==> !IsCompanyScoped(legacy, company)
  {
    var legacy := LegacyPathFor(path, company).value;
    assert legacy[|ROOT|..] == path[|CompanyPrefix(company)|..];
    assert CompanyPrefix(company) + path[|CompanyPrefix(company)|..] == path;
  }

  /** The comment on the inverse calls it exact; this family of keys does not round trip. */
  lemma DoublyScopedDoesNotRoundTrip(company: string, rest: string)
    ensures var path := CompanyPrefix(company) + company + "/" + rest;
            LegacyPathFor(path, company).Some?
            && CompanyScopedPath(LegacyPathFor(path, company).value, company) == None
  {
    var path := CompanyPrefix(company) + company + "/" + rest;
    assert CompanyPrefix(company) <= path;
    var legacy := LegacyPathFor(path, company).value;
    assert path[|CompanyPrefix(company)|..] == company + "/" + rest;
    assert legacy == CompanyPrefix(company) + rest;
  }
}
