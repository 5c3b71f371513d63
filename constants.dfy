/** The enumerations of utils/constants.ts, each with its numeric or
  * character code and the decoding of that code. */
module Constants {
  import opened Wrappers

  /** Role of a user inside a team: 0 owner, 1 manager, 2 member, 3 visitor. */
  datatype TeamPermission = OWNER | MANAGER | MEMBER | VISITOR {
    function Value(): nat {
      match this
      case OWNER => 0
      case MANAGER => 1
      case MEMBER => 2
      case VISITOR => 3
    }
  }

  function TeamPermissionOf(n: int): (r: Option<TeamPermission>)
    ensures r.Some? <==> 0 <= n <= 3
    ensures r.Some? ==> r.value.Value() == n
  {
    if n == 0 then Some(OWNER)
    else if n == 1 then Some(MANAGER)
    else if n == 2 then Some(MEMBER)
    else if n == 3 then Some(VISITOR)
    else None
  }

  /** Role of a user inside a project: 0 admin, 1 editor, 2 read-only, 3 no access. */
  datatype ProjectPermission = ADMIN | EDITOR | READER | FORBIDDEN {
    function Value(): nat {
      match this
      case ADMIN => 0
      case EDITOR => 1
      case READER => 2
      case FORBIDDEN => 3
    }
  }

  function ProjectPermissionOf(n: int): (r: Option<ProjectPermission>)
    ensures r.Some? <==> 0 <= n <= 3
    ensures r.Some? ==> r.value.Value() == n
  {
    if n == 0 then Some(ADMIN)
    else if n == 1 then Some(EDITOR)
    else if n == 2 then Some(READER)
    else if n == 3 then Some(FORBIDDEN)
    else None
  }

  /** The environment a project runs against: development, test, production, mock server. */
  datatype ProjectEnv = DEV | TEST | PROD | MOCK {
    function Value(): nat {
      match this
      case DEV => 0
      case TEST => 1
      case PROD => 2
      case MOCK => 3
    }
  }

  function ProjectEnvOf(n: int): (r: Option<ProjectEnv>)
    ensures r.Some? <==> 0 <= n <= 3
    ensures r.Some? ==> r.value.Value() == n
  {
    if n == 0 then Some(DEV)
    else if n == 1 then Some(TEST)
    else if n == 2 then Some(PROD)
    else if n == 3 then Some(MOCK)
    else None
  }

  /** What a ledger entry records: an edit of the basic info, the responses, the
    * request parameters or the body JSON, or the creation or deletion of an api.
    * Its code is the one-character string stored in `version_type`. */
  datatype VersionUpdateType = BASIC | RES | PARAMS | BODY | ADD | DELETE {
    function Code(): (c: char)
      ensures '0' <= c <= '5'
    {
      match this
      case BASIC => '0'
      case RES => '1'
      case PARAMS => '2'
      case BODY => '3'
      case ADD => '4'
      case DELETE => '5'
    }

    /** The two kinds a rollback refuses: they change whether the api exists. */
    predicate ChangesExistence() {
      this == ADD || this == DELETE
    }
  }

  /** Decoding a `version_type` code; every code belongs to exactly one kind. */
  function VersionUpdateTypeOf(c: char): (r: Option<VersionUpdateType>)
    ensures r.Some? <==> '0' <= c <= '5'
    ensures r.Some? ==> r.value.Code() == c
    ensures forall t: VersionUpdateType :: t.Code() == c ==> r == Some(t)
  {
    if c == '0' then Some(BASIC)
    else if c == '1' then Some(RES)
    else if c == '2' then Some(PARAMS)
    else if c == '3' then Some(BODY)
    else if c == '4' then Some(ADD)
    else if c == '5' then Some(DELETE)
    else None
  }

  /** The refused kinds are exactly those coded '4' and '5'. */
  lemma RefusedCodes(t: VersionUpdateType)
    ensures t.ChangesExistence() <==> t.Code() in {'4', '5'}
  {
  }
}
