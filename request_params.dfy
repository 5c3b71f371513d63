/** The request-parameter shapes shared by `updateApi` and `runApi`. */
module RequestParams {

  /** An optional `param_value`: absent, a string or a number. */
  datatype ParamValue = Absent | Str(s: string) | Num(n: int)

  /** One entry of a `params_list`. */
  datatype ParamEntry = ParamEntry(param_name: string, param_type: int, param_desc: string, param_value: ParamValue)

  /** One element of `api_request_params`: the class code (0 Params,
    * 1 Body form-data, 2 Body x-www-form-urlencoded, 3 Cookie, 4 Header) and
    * its entries. */
  datatype ParamGroup = ParamGroup(kind: int, params_list: seq<ParamEntry>)
}
