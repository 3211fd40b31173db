/** The fixed table from the remote data set's category codes to labels
    (untitled91.py:45-61), entry for entry. */
module CodeMapper {
  const Mapping: map<string, string> := map[
    "T009002" := "Total persons",
    "3000" := "Male",
    "4000" := "Female",
    "53105" := "18-24 years",
    "53500" := "25-34 years",
    "53700" := "35-44 years",
    "53800" := "45-54 years",
    "53900" := "55-64 years",
    "53925" := "65+ years",
    "21600" := "No education",
    "2018710" := "Primary education",
    "2018720" := "Secondary education",
    "2018750" := "Higher education",
    "2018800" := "Vocational training",
    "2018810" := "Other education"
  ]

  /** No two codes share a label, so a label identifies its code. */
  lemma MappingInjective(c1: string, c2: string)
    requires c1 in Mapping && c2 in Mapping && c1 != c2
    ensures Mapping[c1] != Mapping[c2]
  {
  }

  /** No label is itself a code, so a label never maps again. */
  lemma LabelsAreNotCodes(name: string)
    requires name in Mapping.Values
    ensures name !in Mapping
  {
  }
}
