/** JSON trees, as the journal stores and redacts them. */
module JsonTrees {

  /** JSON trees. An object keeps its entries in insertion order. */
  datatype Json = Null | Bool(flag: bool) | Number(number: int) | Text(text: string)
                | List(items: seq<Json>) | Object(entries: seq<Entry>)

  datatype Entry = Entry(key: string, item: Json)
}
