/** `CpasGroupModel`: a forum group, built from the JSON keys "name" and "rank". */
module CpasGroup {
  import opened Wrappers
  import opened Java

  /** The group name and its rank (higher ranks carry more power; any int is accepted). */
  datatype CpasGroupModel = CpasGroupModel(rank: Int32, name: string)

  /** The constructor: a null name throws, anything else is kept as given. */
  function Create(name: Option<string>, rank: Int32): (r: Result<CpasGroupModel, JavaException>)
    ensures r.Success? <==> name.Some?
    ensures r.Failure? ==> r.error == NullArgument("name")
    ensures r.Success? ==> r.value.name == name.value && r.value.rank == rank
  {
    var n :- name.ToResult(NullArgument("name"));
    Success(CpasGroupModel(rank, n))
  }

  /** Every group value is what the constructor builds from its own fields. */
  lemma CreateFromFields(g: CpasGroupModel)
    ensures Create(Some(g.name), g.rank) == Success(g)
  {
  }
}
