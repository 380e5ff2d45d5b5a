/** The records the mock back end stores: users and blood requests, and the data they are created from. */
module Records {
  import opened BloodGroups

  datatype UserRole = Requestor | Volunteer | Both

  datatype Sex = Male | Female

  datatype RequestStatus = Open | Closed

  /** A registered person. `donations` counts the donations made so far. */
  datatype User = User(
    id: string,
    name: string,
    email: string,
    phone: string,
    bloodGroup: BloodGroup,
    sex: Sex,
    locality: string,
    role: UserRole,
    donations: int)

  /** What a registration supplies: a user without its `id` and `donations`. */
  datatype UserData = UserData(
    name: string,
    email: string,
    phone: string,
    bloodGroup: BloodGroup,
    sex: Sex,
    locality: string,
    role: UserRole)

  /** A request for blood; `createdAt` is a time in milliseconds. */
  datatype BloodRequest = BloodRequest(
    id: string,
    requestorId: string,
    patientName: string,
    bloodGroup: BloodGroup,
    units: int,
    hospital: string,
    locality: string,
    urgency: string,
    status: RequestStatus,
    createdAt: int)

  /** What a new request supplies: a request without its `id`, `createdAt` and `status`. */
  datatype RequestData = RequestData(
    requestorId: string,
    patientName: string,
    bloodGroup: BloodGroup,
    units: int,
    hospital: string,
    locality: string,
    urgency: string)

  /** The user a registration stores: the supplied data, the given id, no donations yet. */
  function NewUser(data: UserData, id: string): User
  {
    User(id, data.name, data.email, data.phone, data.bloodGroup, data.sex, data.locality, data.role, 0)
  }

  /** The request a submission stores: the supplied data, the given id and time, status Open. */
  function NewRequest(data: RequestData, id: string, createdAt: int): BloodRequest
  {
    BloodRequest(id, data.requestorId, data.patientName, data.bloodGroup, data.units,
                 data.hospital, data.locality, data.urgency, Open, createdAt)
  }
}
