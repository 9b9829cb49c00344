/** The user entities of the generated API types: the request a client sends and the
    user the service answers with. */
module Users {
  import opened Wrappers

  /** `generated.UserRequest`: email and age are required, the rest optional. */
  datatype UserRequest = UserRequest(
    email: string,
    age: int,
    name: Option<string>,
    bio: Option<string>,
    isActive: Option<bool>)

  /** `generated.User`: the request's fields plus the assigned id. */
  datatype User = User(
    id: int,
    email: string,
    age: int,
    name: Option<string>,
    bio: Option<string>,
    isActive: Option<bool>)
}
