/** The application records of types/index.ts that the authentication pipeline passes around. */
module Types {

  /** A profile document of the users collection; `id` is the identity provider's subject id. */
  datatype User = User(id: string, email: string, createdAt: string)

  datatype LoginCredentials = LoginCredentials(email: string, password: string)

  datatype RegisterCredentials = RegisterCredentials(email: string, password: string, confirmPassword: string)
}
