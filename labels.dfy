/**
 * The display columns: fixed lookup tables from codes to Portuguese labels
 * (main.py lines 17-43 and 104-105).
 */
module Labels {
  import opened Wrappers
  import opened Records

  /** `exp_dict`: experience-level code to label. */
  const ExperienceLabels: map<string, string> :=
    map["EN" := "Júnior", "MI" := "Pleno", "SE" := "Sênior", "EX" := "Executivo"]

  /** `country_dict`: the fifteen ISO 3166-1 alpha-2 codes that have a Portuguese name. */
  const CountryNames: map<string, string> :=
    map["US" := "Estados Unidos", "GB" := "Reino Unido", "CA" := "Canadá", "IN" := "Índia",
        "DE" := "Alemanha", "FR" := "França", "ES" := "Espanha", "BR" := "Brasil",
        "NL" := "Holanda", "CH" := "Suíça", "AU" := "Austrália", "IT" := "Itália",
        "PT" := "Portugal", "PL" := "Polônia", "RO" := "Romênia"]

  /** `size_dict`: company-size code to label. */
  const SizeLabels: map<string, string> := map["S" := "Pequena", "M" := "Média", "L" := "Grande"]

  /** `Series.map(exp_dict)`: a code outside the table gives NaN, here None. */
  function ExperienceLabel(code: string): (r: Option<string>)
    ensures r == Some("Júnior") <==> code == "EN"
    ensures r == Some("Pleno") <==> code == "MI"
    ensures r == Some("Sênior") <==> code == "SE"
    ensures r == Some("Executivo") <==> code == "EX"
    ensures r == None <==> code !in {"EN", "MI", "SE", "EX"}
  {
    if code in ExperienceLabels then Some(ExperienceLabels[code]) else None
  }

  /** `Series.map(country_dict).fillna(code)`: unlisted codes stand for themselves, so no label is missing. */
  function ResidenceLabel(code: string): (r: string)
    ensures code in CountryNames ==> r == CountryNames[code] && r != code
    ensures code !in CountryNames ==> r == code
  {
    if code in CountryNames then CountryNames[code] else code
  }

  /** `Series.map(size_dict)`: a code other than S, M or L gives NaN, here None. */
  function SizeLabel(code: string): (r: Option<string>)
    ensures r == Some("Pequena") <==> code == "S"
    ensures r == Some("Média") <==> code == "M"
    ensures r == Some("Grande") <==> code == "L"
    ensures r == None <==> code !in {"S", "M", "L"}
  {
    if code in SizeLabels then Some(SizeLabels[code]) else None
  }

  /**
   * On two-letter codes the residence label loses nothing: different countries get different
   * labels, so grouping by label is grouping by country.
   */
  lemma ResidenceLabelInjective(a: string, b: string)
    requires |a| == 2 && |b| == 2
    requires ResidenceLabel(a) == ResidenceLabel(b)
    ensures a == b
  {
  }

  /** Lines 23 and 43: the base table with `experience_level_pt` and `employee_residence_pt` added. */
  function AddLabelColumns(df: seq<Record>): (t: seq<LabeledRecord>)
    ensures |t| == |df|
    ensures forall i :: 0 <= i < |df| ==> t[i].rec == df[i]
    ensures forall i :: 0 <= i < |df| ==> t[i].experienceLevelPt == ExperienceLabel(df[i].experienceLevel)
    ensures forall i :: 0 <= i < |df| ==> t[i].employeeResidencePt == ResidenceLabel(df[i].employeeResidence)
  {
    seq(|df|, i requires 0 <= i < |df| =>
      Labeled(df[i], ExperienceLabel(df[i].experienceLevel), ResidenceLabel(df[i].employeeResidence)))
  }

  /** Line 105: `company_size_pt` is added to the rows of the filtered view only. */
  function AddSizeColumn(view: seq<LabeledRecord>): (v: seq<SizedRecord>)
    ensures |v| == |view|
    ensures forall i :: 0 <= i < |view| ==> v[i].row == view[i]
    ensures forall i :: 0 <= i < |view| ==> v[i].companySizePt == SizeLabel(view[i].rec.companySize)
  {
    seq(|view|, i requires 0 <= i < |view| => Sized(view[i], SizeLabel(view[i].rec.companySize)))
  }
}
