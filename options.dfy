/** The optional value used for Java's nullable references (`latestDate`, the profile strings)
    and for an order amount that may fail to parse. */
module Options {

  datatype Option<+T> = None | Some(value: T)

}
