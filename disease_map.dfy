/** The name tables of the plant-disease service: Chinese plant names to
    detector model types, detector class labels to Chinese disease names,
    and the reverse table for the diseases. */
module DiseaseMap {
  const Healthy := "健康"

  function PlantNameMap(): map<string, string> {
    map["葡萄" := "Grape", "马铃薯" := "Potato"]
  }

  function DiseaseNameMap(): map<string, string> {
    map["Grape_Health" := Healthy, "Potato_Health" := Healthy,
        "Grape_Black_Rot" := "葡萄黑腐病", "Grape_Black_Measles" := "葡萄黑斑病",
        "Grape_Leaf_Blight" := "葡萄叶枯病", "Potato_Early_Blight" := "马铃薯早疫病",
        "Potato_Late_Blight" := "马铃薯晚疫病"]
  }

  function DiseaseNameRMap(): map<string, string> {
    map["葡萄黑腐病" := "Grape_Black_Rot", "葡萄黑斑病" := "Grape_Black_Measles",
        "葡萄叶枯病" := "Grape_Leaf_Blight", "马铃薯早疫病" := "Potato_Early_Blight",
        "马铃薯晚疫病" := "Potato_Late_Blight"]
  }

  /** The reverse table undoes the forward table on every disease, and
      the forward table undoes the reverse one on every entry. */
  lemma ReverseInverts()
    ensures forall k :: k in DiseaseNameMap() && DiseaseNameMap()[k] != Healthy ==>
      DiseaseNameMap()[k] in DiseaseNameRMap() && DiseaseNameRMap()[DiseaseNameMap()[k]] == k
    ensures forall v :: v in DiseaseNameRMap() ==>
      DiseaseNameRMap()[v] in DiseaseNameMap() && DiseaseNameMap()[DiseaseNameRMap()[v]] == v
  {
  }

  /** Both health labels read as healthy, which has no reverse entry. */
  lemma HealthHasNoReverse()
    ensures DiseaseNameMap()["Grape_Health"] == Healthy && DiseaseNameMap()["Potato_Health"] == Healthy
    ensures Healthy !in DiseaseNameRMap()
    ensures forall k :: k in DiseaseNameMap() && DiseaseNameMap()[k] == Healthy ==> k in {"Grape_Health", "Potato_Health"}
  {
  }

  /** No two diseases share a class label. */
  lemma ReverseInjective()
    ensures forall a, b :: a in DiseaseNameRMap() && b in DiseaseNameRMap() && a != b ==>
      DiseaseNameRMap()[a] != DiseaseNameRMap()[b]
  {
  }
}
