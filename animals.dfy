/** The adoptable animals the pages look up by route id. The data file itself is not part
    of this model: the catalogue is a parameter. */
module Animals {
  import opened Wrappers

  /** The fields of an animal the modelled logic reads; display-only fields (image, age,
      gender, breed) are left out. */
  datatype Animal = Animal(id: int, name: string, category: string, neutered: bool)

  /** Whether some animal of the catalogue has this id. */
  predicate Listed(animals: seq<Animal>, id: int)
  {
    exists k :: 0 <= k < |animals| && animals[k].id == id
  }

  /** `animalsData.find(a => a.id === Number(id))`. A route segment that does not convert
      to an integer (`Number` gives `NaN` or a fraction) is `None` and matches nothing. */
  function FindAnimal(animals: seq<Animal>, routeId: Option<int>): (r: Option<Animal>)
    ensures r.Some? ==> routeId.Some? && r.value.id == routeId.value && r.value in animals
    ensures r.Some? ==> exists k :: 0 <= k < |animals| && animals[k] == r.value
                                   && forall m :: 0 <= m < k ==> animals[m].id != r.value.id
    ensures r.None? <==> routeId.None? || !Listed(animals, routeId.value)
  {
    if routeId.None? || animals == [] then None
    else if animals[0].id == routeId.value then Some(animals[0])
    else
      var rest := FindAnimal(animals[1..], routeId);
      assert rest.Some? ==> exists k :: 0 <= k < |animals| && animals[k] == rest.value
                                         && forall m :: 0 <= m < k ==> animals[m].id != rest.value.id by {
        if rest.Some? {
          var k :| 0 <= k < |animals[1..]| && animals[1..][k] == rest.value
                   && forall m :: 0 <= m < k ==> animals[1..][m].id != rest.value.id;
          assert animals[k + 1] == rest.value;
          assert forall m :: 0 <= m < k + 1 ==> animals[m].id != rest.value.id by {
            forall m | 0 <= m < k + 1 ensures animals[m].id != rest.value.id {
              if m > 0 { assert animals[m] == animals[1..][m - 1]; }
            }
          }
        }
      }
      rest
  }
}
