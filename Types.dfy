/** The two records the client passes around: a business lead and a citation. */
module Types {

  /** One business lead. Every field is free text; the service may leave any of
      them empty, so the empty string stands for "not available". */
  datatype Lead = Lead(
    name: string,
    address: string,
    phone: string,
    website: string,
    email: string,
    businessType: string,
    employeeCount: string,
    annualRevenue: string)

  /** A web page the search-grounded answer cites. */
  datatype Source = Source(uri: string, title: string)
}
