/** The fixed table of visual styles the page offers and the lookup of the
    selected style by name. */
module Styles {
  import opened Outcomes

  /** One entry of the table: the name shown on its button and the
      description handed to the image service. */
  datatype Style = Style(name: string, description: string)

  /** The table, in the order the buttons are shown. */
  const Table: seq<Style> := [
    Style("Fantasia", "Estilo de fantasia épica, vibrante, moderno, design arrojado"),
    Style("Cyberpunk", "Estilo cyberpunk, neon, futurista, tecnológico, sombrio"),
    Style("Minimalista", "Estilo minimalista, limpo, simples, com formas geométricas e cores sólidas"),
    Style("Retrô", "Estilo retrô, pixel art, 8-bit, cores vibrantes, nostálgico"),
    Style("Sci-Fi", "Estilo Sci-Fi, ficção científica, naves espaciais, tecnologia avançada, cosmos"),
    Style("Medieval", "Estilo medieval fantástico, dragões, castelos, espadas, magia antiga"),
    Style("Abstrato", "Estilo abstrato, formas orgânicas, cores vibrantes, arte moderna, conceitual")
  ]

  /** The style selected when the page opens. */
  const InitialStyleName: string := "Fantasia"

  /** `name` is the name of some entry of `table`. */
  predicate Offers(table: seq<Style>, name: string) {
    exists i :: 0 <= i < |table| && table[i].name == name
  }

  /** `table.find(s => s.name === name)`: the first entry with that name. */
  function Find(table: seq<Style>, name: string): (r: Option<Style>)
    ensures r.None? <==> !Offers(table, name)
    ensures r.Some? ==> r.value in table && r.value.name == name
    ensures r.Some? ==> exists i :: 0 <= i < |table| && table[i] == r.value &&
                                   forall j :: 0 <= j < i ==> table[j].name != name
  {
    if table == [] then None
    else if table[0].name == name then Some(table[0])
    else
      var r := Find(table[1..], name);
      assert r.Some? ==> exists i :: 0 <= i < |table| && table[i] == r.value &&
                                     forall j :: 0 <= j < i ==> table[j].name != name by {
        if r.Some? {
          var i :| 0 <= i < |table| - 1 && table[1..][i] == r.value &&
                   forall j :: 0 <= j < i ==> table[1..][j].name != name;
          assert table[i + 1] == r.value;
        }
      }
      r
  }

  /** Every description is a non-empty text. */
  lemma DescriptionsNonEmpty()
    ensures forall i :: 0 <= i < |Table| ==> Table[i].description != []
  {
  }

  /** The names in the table are pairwise distinct and the initial selection is
      one of them. */
  lemma {:induction false} NamesDistinct()
    ensures forall i, j :: 0 <= i < j < |Table| ==> Table[i].name != Table[j].name
    ensures Offers(Table, InitialStyleName)
  {
    assert Table[0].name == InitialStyleName;
  }

  /** Looking up the name of any entry finds that very entry. */
  lemma {:induction false} FindEntry(i: nat)
    requires i < |Table|
    ensures Find(Table, Table[i].name) == Some(Table[i])
  {
    NamesDistinct();
    var r := Find(Table, Table[i].name);
    assert Offers(Table, Table[i].name);
    var k :| 0 <= k < |Table| && Table[k] == r.value &&
             forall j :: 0 <= j < k ==> Table[j].name != Table[i].name;
    assert k == i;
  }
}
